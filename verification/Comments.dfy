/** Blanking the comments of a Nix file in place. A character stands for one byte; every comment byte but a
    newline becomes a space, so all offsets stay valid, and blanking twice changes nothing more. */
module Comments {

  // ---------- tokens ----------

  /** One past the closing quote of a string whose inside starts at `i`. */
  function StringEnd(s: string, i: nat): (e: nat)
    ensures e <= |s| && (i < |s| ==> i < e)
    decreases |s| - i
  {
    if i >= |s| then |s|
    else if s[i] == '"' then i + 1
    else if s[i] == '\\' then StringEnd(s, i + 2)
    else StringEnd(s, i + 1)
  }

  predicate TwoAt(s: string, i: nat, a: char, b: char) { i + 1 < |s| && s[i] == a && s[i + 1] == b }

  predicate Escapes(c: char) { c == '$' || c == '\'' || c == '\\' }

  /** One past the closing pair of an indented string; a pair before `$`, `'` or a backslash is an escape. */
  function IndentedEnd(s: string, i: nat): (e: nat)
    ensures e <= |s| && (i < |s| ==> i < e)
    decreases |s| - i
  {
    if i >= |s| then |s|
    else if TwoAt(s, i, '\'', '\'') then
      if i + 2 < |s| && Escapes(s[i + 2]) then IndentedEnd(s, i + 3) else i + 2
    else IndentedEnd(s, i + 1)
  }

  function LineEnd(s: string, i: nat): (e: nat)
    requires i <= |s|
    ensures i <= e <= |s|
    decreases |s| - i
  {
    if i == |s| || s[i] == '\n' then i else LineEnd(s, i + 1)
  }

  /** One past the closing pair of a block comment whose inside starts at `i`. */
  function BlockEnd(s: string, i: nat): (e: nat)
    ensures e <= |s| && (i < |s| ==> i < e)
    decreases |s| - i
  {
    if i + 1 >= |s| then |s| else if TwoAt(s, i, '*', '/') then i + 2 else BlockEnd(s, i + 1)
  }

  predicate IsComment(s: string, i: nat)
    requires i < |s|
  {
    s[i] == '#' || TwoAt(s, i, '/', '*')
  }

  /** End of the token that starts at `i`: a string, an indented string, a comment, or one character. */
  function TokenEnd(s: string, i: nat): (e: nat)
    requires i < |s|
    ensures i < e <= |s|
  {
    if s[i] == '"' then if i + 1 < |s| then StringEnd(s, i + 1) else |s|
    else if TwoAt(s, i, '\'', '\'') then if i + 2 < |s| then IndentedEnd(s, i + 2) else |s|
    else if s[i] == '#' then LineEnd(s, i + 1)
    else if TwoAt(s, i, '/', '*') then if i + 2 < |s| then BlockEnd(s, i + 2) else |s|
    else i + 1
  }

  function Blank(c: char): char { if c == '\n' then '\n' else ' ' }

  function Blanked(s: string): (r: string)
    ensures |r| == |s| && forall k :: 0 <= k < |s| ==> r[k] == Blank(s[k])
  {
    seq(|s|, k requires 0 <= k < |s| => Blank(s[k]))
  }

  /** The text from token start `i` on with its comments blanked. */
  function MaskFrom(s: string, i: nat): (r: string)
    requires i <= |s|
    ensures |r| == |s| - i
    decreases |s| - i
  {
    if i == |s| then ""
    else
      var e := TokenEnd(s, i);
      (if IsComment(s, i) then Blanked(s[i..e]) else s[i..e]) + MaskFrom(s, e)
  }

  function Mask(s: string): (r: string)
    ensures |r| == |s|
  {
    MaskFrom(s, 0)
  }

  /** The masked token at `i`. */
  function MaskedToken(s: string, i: nat): (r: string)
    requires i < |s|
    ensures |r| == TokenEnd(s, i) - i
  {
    if IsComment(s, i) then Blanked(s[i..TokenEnd(s, i)]) else s[i..TokenEnd(s, i)]
  }

  lemma MaskStep(s: string, i: nat)
    requires i < |s|
    ensures MaskFrom(s, i) == MaskedToken(s, i) + MaskFrom(s, TokenEnd(s, i))
  {
  }

  /** Where a masked text agrees with the masked rest, it shows the masked token and then the rest. */
  lemma MaskSplits(s: string, i: nat, m: string)
    requires i < |s| == |m| && m[i..] == MaskFrom(s, i)
    ensures m[i..TokenEnd(s, i)] == MaskedToken(s, i) && m[TokenEnd(s, i)..] == MaskFrom(s, TokenEnd(s, i))
  {
    hide MaskFrom, TokenEnd, MaskedToken;
    MaskStep(s, i);
    var e := TokenEnd(s, i);
    assert m[i..][..e - i] == m[i..e] && m[i..][e - i..] == m[e..];
  }

  /** Every byte stays or is blanked; newlines stay where they were. */
  lemma {:induction false} MaskOnlyBlanks(s: string, i: nat)
    requires i <= |s|
    ensures forall k :: 0 <= k < |s| - i ==> MaskFrom(s, i)[k] == s[i + k] || MaskFrom(s, i)[k] == Blank(s[i + k])
    ensures forall k :: 0 <= k < |s| - i ==> (MaskFrom(s, i)[k] == '\n' <==> s[i + k] == '\n')
    decreases |s| - i
  {
    hide TokenEnd, IsComment;
    if i < |s| {
      var e := TokenEnd(s, i);
      MaskOnlyBlanks(s, e);
      forall k | e - i <= k < |s| - i
        ensures MaskFrom(s, i)[k] == MaskFrom(s, e)[k - (e - i)] && s[i + k] == s[e + (k - (e - i))]
      {
      }
    }
  }

  // ---------- what a token is ----------

  /** How many backslashes stand right before `k`, back to `i` at most. */
  ghost function Slashes(s: string, i: nat, k: nat): nat
    requires k <= |s|
    decreases k
  {
    if i < k && s[k - 1] == '\\' then Slashes(s, i, k - 1) + 1 else 0
  }

  /** A quote after an even number of backslashes closes the string. */
  ghost predicate Closing(s: string, i: nat, k: int) { i <= k < |s| && s[k] == '"' && Slashes(s, i, k) % 2 == 0 }

  /** `e` is one past the first quote that closes, or the end of the text if none does. */
  ghost predicate ClosesString(s: string, i: nat, e: nat) {
    && (forall k :: Closing(s, i, k) ==> e <= k + 1)
    && if exists k :: Closing(s, i, k) then e > 0 && Closing(s, i, e - 1) else e == |s|
  }

  /** Starting one plain byte or one escape later leaves every parity as it is. */
  lemma {:induction false} SlashesLater(s: string, i: nat, step: nat, k: nat)
    requires i + step <= k <= |s| && ((step == 1 && s[i] != '\\') || (step == 2 && s[i] == '\\'))
    ensures Slashes(s, i, k) % 2 == Slashes(s, i + step, k) % 2
    decreases k
  {
    if k > i + step {
      if s[k - 1] == '\\' { SlashesLater(s, i, step, k - 1); }
    } else if step == 2 {
      assert Slashes(s, i, i + 1) == Slashes(s, i, i) + 1;
    }
  }

  lemma ClosingLater(s: string, i: nat, step: nat, k: int)
    requires i + step <= |s| && ((step == 1 && s[i] != '\\' && s[i] != '"') || (step == 2 && s[i] == '\\'))
    ensures Closing(s, i, k) <==> Closing(s, i + step, k)
  {
    if i + step <= k < |s| {
      SlashesLater(s, i, step, k);
    } else if step == 2 && k == i + 1 && k < |s| {
      assert Slashes(s, i, i + 1) == Slashes(s, i, i) + 1;
    }
  }

  lemma {:induction false} StringIsExact(s: string, i: nat)
    requires i <= |s|
    ensures ClosesString(s, i, StringEnd(s, i))
    decreases |s| - i
  {
    hide Slashes;
    if i < |s| {
      NoSlashes(s, i);
      if s[i] == '"' {
        assert Closing(s, i, i);
      } else {
        var step := if s[i] == '\\' then 2 else 1;
        if i + step <= |s| {
          var j := i + step;
          forall k ensures Closing(s, i, k) <==> Closing(s, j, k) { ClosingLater(s, i, step, k); }
          StringIsExact(s, j);
          assert (exists k :: Closing(s, i, k)) <==> exists k :: Closing(s, j, k);
          hide Closing;
        } else {
          LastIsNoQuote(s, i);
        }
      }
    }
  }

  lemma NoSlashes(s: string, i: nat)
    requires i <= |s|
    ensures Slashes(s, i, i) == 0
  {
  }

  lemma LastIsNoQuote(s: string, i: nat)
    requires i + 1 == |s| && s[i] != '"'
    ensures forall k :: !Closing(s, i, k)
  {
  }

  /** The text stays open up to `e`: every pair of quotes before it starts an escape or lies inside one. */
  ghost predicate StaysOpen(s: string, i: nat, e: nat) {
    forall k :: i <= k && k + 2 < e && TwoAt(s, k, '\'', '\'') ==> EscapeAt(s, k) || InEscape(s, i, k)
  }

  ghost predicate EscapeAt(s: string, k: nat) { TwoAt(s, k, '\'', '\'') && k + 2 < |s| && Escapes(s[k + 2]) }

  ghost predicate InEscape(s: string, i: nat, k: nat) { exists n: nat :: i <= n < k <= n + 2 && EscapeAt(s, n) }

  /** An indented string ends with the first pair that is no escape, or with the text. */
  lemma {:induction false} IndentedIsExact(s: string, i: nat)
    requires i <= |s|
    ensures var e := IndentedEnd(s, i);
            StaysOpen(s, i, e) && (e < |s| ==> i + 2 <= e && TwoAt(s, e - 2, '\'', '\'') && !Escapes(s[e]))
    decreases |s| - i
  {
    if i < |s| {
      var e := IndentedEnd(s, i);
      if EscapeAt(s, i) {
        IndentedIsExact(s, i + 3);
        forall k | i <= k && k + 2 < e && TwoAt(s, k, '\'', '\'') ensures EscapeAt(s, k) || InEscape(s, i, k) {
          if i < k <= i + 2 {
            assert InEscape(s, i, k);
          } else if k >= i + 3 && !EscapeAt(s, k) {
            var n: nat :| i + 3 <= n < k <= n + 2 && EscapeAt(s, n);
            assert InEscape(s, i, k);
          }
        }
      } else if !TwoAt(s, i, '\'', '\'') {
        IndentedIsExact(s, i + 1);
        forall k | i <= k && k + 2 < e && TwoAt(s, k, '\'', '\'') ensures EscapeAt(s, k) || InEscape(s, i, k) {
          if k > i && !EscapeAt(s, k) {
            var n: nat :| i + 1 <= n < k <= n + 2 && EscapeAt(s, n);
            assert InEscape(s, i, k);
          }
        }
      }
    }
  }

  lemma {:induction false} LineIsExact(s: string, i: nat)
    requires i <= |s|
    ensures var e := LineEnd(s, i); (forall k :: i <= k < e ==> s[k] != '\n') && (e < |s| ==> s[e] == '\n')
    decreases |s| - i
  {
    if i < |s| && s[i] != '\n' { LineIsExact(s, i + 1); }
  }

  lemma {:induction false} BlockIsExact(s: string, i: nat)
    requires i <= |s|
    ensures var e := BlockEnd(s, i);
            && (forall k :: i <= k && k + 2 < e ==> !TwoAt(s, k, '*', '/'))
            && (e < |s| ==> i + 2 <= e && TwoAt(s, e - 2, '*', '/'))
    decreases |s| - i
  {
    if i + 1 < |s| && !TwoAt(s, i, '*', '/') { BlockIsExact(s, i + 1); }
  }

  /** Tokens and what the mask shows of them, spelled out: a string ends at its first quote that no backslash escapes,
      an indented string at its first pair that is no escape, a line comment before its newline and a block comment
      with its first closing pair; each of them with the text if there is none. Comments are blanked whole, all else
      stays, and the next token follows. */
  lemma TokensAreExact(s: string, i: nat)
    requires i < |s|
    ensures var e := TokenEnd(s, i);
      && (s[i] == '"' ==> ClosesString(s, i + 1, e))
      && (TwoAt(s, i, '\'', '\'') ==>
            StaysOpen(s, i + 2, e) && (e < |s| ==> i + 4 <= e && TwoAt(s, e - 2, '\'', '\'') && !Escapes(s[e])))
      && (s[i] == '#' ==> (forall k :: i <= k < e ==> s[k] != '\n') && (e < |s| ==> s[e] == '\n'))
      && (TwoAt(s, i, '/', '*') ==>
            (forall k :: i + 2 <= k && k + 2 < e ==> !TwoAt(s, k, '*', '/')) && (e < |s| ==> i + 4 <= e && TwoAt(s, e - 2, '*', '/')))
      && (s[i] !in {'"', '#'} && !TwoAt(s, i, '\'', '\'') && !TwoAt(s, i, '/', '*') ==> e == i + 1)
    ensures var e := TokenEnd(s, i);
      && MaskFrom(s, i)[e - i..] == MaskFrom(s, e)
      && forall k :: i <= k < e ==>
           MaskFrom(s, i)[k - i] == if (s[i] == '#' || TwoAt(s, i, '/', '*')) && s[k] != '\n' then ' ' else s[k]
  {
    hide ClosesString, StaysOpen, StringEnd, IndentedEnd, LineEnd, BlockEnd, MaskFrom;
    MaskStep(s, i);
    StringIsExact(s, i + 1);
    LineIsExact(s, i + 1);
    if i + 2 <= |s| {
      IndentedIsExact(s, i + 2);
      BlockIsExact(s, i + 2);
    }
    if s[i] == '"' && i + 1 == |s| { LastCloses(s); }
  }

  lemma LastCloses(s: string)
    ensures ClosesString(s, |s|, |s|)
  {
  }

  // ---------- the same token elsewhere ----------

  /** What may follow a token instead of `c` without changing it. */
  predicate Follows(c: char, d: char) { c == d || ((c == '#' || c == '/') && d == ' ') }

  /** The stretch [i, e) of `s` appears at `j` in `t`, with a like continuation. */
  ghost predicate Alike(s: string, i: nat, e: nat, t: string, j: nat) {
    && i <= e <= |s| && j + (e - i) <= |t|
    && (forall k :: i <= k < e ==> s[k] == t[j + (k - i)])
    && (e == |s| <==> j + (e - i) == |t|)
    && (e < |s| ==> Follows(s[e], t[j + (e - i)]))
  }

  lemma {:induction false} SameString(s: string, i: nat, t: string, j: nat)
    requires i <= |s| && Alike(s, i, StringEnd(s, i), t, j)
    ensures StringEnd(t, j) == j + (StringEnd(s, i) - i)
    decreases |s| - i
  {
    if i < |s| && s[i] != '"' {
      var step := if s[i] == '\\' then 2 else 1;
      if i + step <= |s| { SameString(s, i + step, t, j + step); }
    }
  }

  lemma {:induction false} SameIndented(s: string, i: nat, t: string, j: nat)
    requires i <= |s| && Alike(s, i, IndentedEnd(s, i), t, j)
    ensures IndentedEnd(t, j) == j + (IndentedEnd(s, i) - i)
    decreases |s| - i
  {
    if i < |s| {
      var e := IndentedEnd(s, i);
      assert t[j] == s[i];
      if TwoAt(s, i, '\'', '\'') {
        assert t[j + 1] == s[i + 1];
        if i + 2 < |s| && Escapes(s[i + 2]) { SameIndented(s, i + 3, t, j + 3); }
      } else {
        SameIndented(s, i + 1, t, j + 1);
      }
    }
  }

  lemma {:induction false} SameLine(s: string, i: nat, t: string, j: nat)
    requires i <= |s| && j <= |t| && Alike(s, i, LineEnd(s, i), t, j)
    ensures LineEnd(t, j) == j + (LineEnd(s, i) - i)
    decreases |s| - i
  {
    if i < |s| && s[i] != '\n' { SameLine(s, i + 1, t, j + 1); }
  }

  lemma {:induction false} SameBlock(s: string, i: nat, t: string, j: nat)
    requires i <= |s| && Alike(s, i, BlockEnd(s, i), t, j)
    ensures BlockEnd(t, j) == j + (BlockEnd(s, i) - i)
    decreases |s| - i
  {
    if i + 1 < |s| {
      assert t[j] == s[i];
      if TwoAt(s, i, '*', '/') {
        assert t[j + 1] == s[i + 1];
      } else {
        SameBlock(s, i + 1, t, j + 1);
      }
    }
  }

  lemma AlikeRest(s: string, i: nat, e: nat, t: string, j: nat, n: nat)
    requires Alike(s, i, e, t, j) && i + n <= e
    ensures Alike(s, i + n, e, t, j + n)
    ensures forall k :: i <= k < i + n ==> j + (k - i) < |t| && t[j + (k - i)] == s[k]
    ensures e - i <= n && e < |s| ==> j + n < |t| && Follows(s[e], t[j + n])
    ensures e == |s| <==> j + (e - i) == |t|
  {
  }

  /** A token is the same token wherever its text stands before a like continuation. */
  lemma SameToken(s: string, i: nat, t: string, j: nat)
    requires i < |s| && j < |t| && Alike(s, i, TokenEnd(s, i), t, j)
    ensures TokenEnd(t, j) == j + (TokenEnd(s, i) - i) && IsComment(t, j) == IsComment(s, i)
  {
    hide Alike, StringEnd, IndentedEnd, LineEnd, BlockEnd;
    var e := TokenEnd(s, i);
    AlikeRest(s, i, e, t, j, 1);
    if s[i] == '"' {
      if i + 1 < |s| { SameString(s, i + 1, t, j + 1); }
    } else if TwoAt(s, i, '\'', '\'') {
      AlikeRest(s, i, e, t, j, 2);
      if i + 2 < |s| { SameIndented(s, i + 2, t, j + 2); }
    } else if s[i] == '#' {
      SameLine(s, i + 1, t, j + 1);
    } else if TwoAt(s, i, '/', '*') {
      AlikeRest(s, i, e, t, j, 2);
      if i + 2 < |s| { SameBlock(s, i + 2, t, j + 2); }
    }
  }

  // ---------- blanking twice ----------

  /** A blank is a token of its own and no comment. */
  lemma BlankIsToken(s: string, i: nat)
    requires i < |s| && (s[i] == ' ' || s[i] == '\n')
    ensures TokenEnd(s, i) == i + 1 && !IsComment(s, i)
  {
  }

  lemma {:induction false} BlanksStay(m: string, i: nat, e: nat)
    requires i <= e <= |m| && forall k :: i <= k < e ==> m[k] == ' ' || m[k] == '\n'
    ensures MaskFrom(m, i) == m[i..e] + MaskFrom(m, e)
    decreases e - i
  {
    hide MaskFrom, TokenEnd, IsComment;
    if i < e {
      BlankIsToken(m, i);
      MaskStep(m, i);
      BlanksStay(m, i + 1, e);
      assert m[i..e] == m[i..i + 1] + m[i + 1..e];
    } else {
      assert m[i..e] == "";
    }
  }

  lemma {:induction false} MaskedStays(s: string, i: nat, m: string)
    requires i <= |s| == |m| && m[i..] == MaskFrom(s, i)
    ensures MaskFrom(m, i) == m[i..]
    decreases |s| - i
  {
    hide MaskFrom, TokenEnd, IsComment;
    if i < |s| {
      var e := TokenEnd(s, i);
      MaskSplits(s, i, m);
      MaskedStays(s, e, m);
      assert m[i..] == m[i..e] + m[e..];
      if IsComment(s, i) {
        forall k | i <= k < e ensures m[k] == ' ' || m[k] == '\n' {
          assert m[i..e][k - i] == Blank(s[i..e][k - i]);
        }
        BlanksStay(m, i, e);
      } else {
        if e < |s| { BoundaryFollows(s, e, m); }
        forall k | i <= k < e ensures s[k] == m[k] {
          assert m[i..e][k - i] == s[i..e][k - i];
        }
        SameToken(s, i, m, i);
        MaskStep(m, i);
      }
    } else {
      NothingToMask(m);
    }
  }

  lemma NothingToMask(m: string)
    ensures MaskFrom(m, |m|) == "" && m[|m|..] == ""
  {
  }

  /** The first byte of a masked token stays, or a comment's first byte became a space. */
  lemma BoundaryFollows(s: string, e: nat, m: string)
    requires e < |s| == |m| && m[e..] == MaskFrom(s, e)
    ensures Follows(s[e], m[e])
  {
    assert m[e] == m[e..][0];
  }

  /** Blanking is idempotent, and touches nothing but comments. */
  lemma MaskTwice(s: string)
    ensures Mask(Mask(s)) == Mask(s)
    ensures forall k :: 0 <= k < |s| ==> (Mask(s)[k] == '\n' <==> s[k] == '\n')
    ensures forall k :: 0 <= k < |s| ==> Mask(s)[k] == s[k] || Mask(s)[k] == ' '
  {
    hide MaskFrom;
    var m := Mask(s);
    assert m[0..] == m;
    MaskedStays(s, 0, m);
    MaskOnlyBlanks(s, 0);
    forall k | 0 <= k < |s| ensures (m[k] == '\n' <==> s[k] == '\n') && (m[k] == s[k] || m[k] == ' ') {
      assert m[k] == MaskFrom(s, 0)[k] && s[k] == s[0 + k];
    }
  }

  // ---------- in place ----------

  method BlankRange(out: array<char>, i: nat, e: nat)
    requires i <= e <= out.Length
    modifies out
    ensures out[..] == old(out[..])[..i] + Blanked(old(out[..])[i..e]) + old(out[..])[e..]
  {
    for k := i to e
      invariant forall n :: i <= n < k ==> out[n] == Blank(old(out[n]))
      invariant forall n :: 0 <= n < i || k <= n < out.Length ==> out[n] == old(out[n])
    {
      if out[k] != '\n' { out[k] := ' '; }
    }
  }

  /** Mask the comments of `source` over a copy of its bytes. */
  method MaskComments(source: string) returns (out: array<char>)
    ensures fresh(out) && out[..] == Mask(source)
  {
    hide MaskFrom, TokenEnd, IsComment, MaskedToken;
    out := new char[|source|](k requires 0 <= k < |source| => source[k]);
    assert out[..] == source;
    ghost var m := Mask(source);
    WholeMask(source);
    var i := 0;
    while i < |source|
      invariant i <= |source| && fresh(out) && out.Length == |source|
      invariant out[..][i..] == source[i..] && out[..][..i] == m[..i] && m[i..] == MaskFrom(source, i)
    {
      MaskSplits(source, i, m);
      TokenKinds(source, i);
      ghost var before := out[..];
      var e;
      if source[i] == '"' {
        e := SkipString(source, i);
      } else if TwoAt(source, i, '\'', '\'') {
        e := SkipIndented(source, i);
      } else if source[i] == '#' || TwoAt(source, i, '/', '*') {
        e := TokenEnd(source, i);
        DropTake(before, i, e);
        DropTake(source, i, e);
        BlankRange(out, i, e);
      } else {
        e := i + 1;
      }
      Grows(source, m, i, e, before, out[..]);
      i := e;
    }
    assert out[..] == out[..][..i] && m == m[..i];
  }

  lemma DropTake(s: string, i: nat, e: nat)
    requires i <= e <= |s|
    ensures s[i..][..e - i] == s[i..e]
  {
  }

  lemma WholeMask(s: string)
    ensures Mask(s)[0..] == MaskFrom(s, 0)
  {
  }

  lemma TokenKinds(s: string, i: nat)
    requires i < |s|
    ensures IsComment(s, i) <==> s[i] == '#' || TwoAt(s, i, '/', '*')
    ensures IsComment(s, i) ==> s[i] != '"' && !TwoAt(s, i, '\'', '\'')
    ensures MaskedToken(s, i) == if IsComment(s, i) then Blanked(s[i..TokenEnd(s, i)]) else s[i..TokenEnd(s, i)]
    ensures !IsComment(s, i) && s[i] != '"' && !TwoAt(s, i, '\'', '\'') ==> TokenEnd(s, i) == i + 1
  {
  }

  /** The masked part grows by one token, blanked if it is a comment. */
  lemma Grows(s: string, m: string, i: nat, e: nat, before: string, after: string)
    requires i < e <= |s| == |before| == |after| == |m| && before[..i] == m[..i] && before[i..] == s[i..]
    requires after == before[..i] + m[i..e] + before[e..] || (after == before && m[i..e] == s[i..e])
    ensures after[..e] == m[..e] && after[e..] == s[e..]
  {
    assert before[i..][..e - i] == before[i..e] && s[i..][..e - i] == s[i..e];
    assert before[i..][e - i..] == before[e..] && s[i..][e - i..] == s[e..];
    assert m[..e] == m[..i] + m[i..e] && before[..e] == before[..i] + before[i..e];
  }

  /** The index driven over a string, two steps for an escape. */
  method SkipString(s: string, start: nat) returns (e: nat)
    requires start < |s| && s[start] == '"'
    ensures e == TokenEnd(s, start)
  {
    var i := start + 1;
    while i < |s| && s[i] != '"'
      invariant (if i < |s| then StringEnd(s, i) else |s|) == TokenEnd(s, start)
      decreases |s| - i
    {
      i := i + if s[i] == '\\' then 2 else 1;
    }
    e := if i + 1 > |s| then |s| else i + 1;
  }

  method SkipIndented(s: string, start: nat) returns (e: nat)
    requires start < |s| && TwoAt(s, start, '\'', '\'') && s[start] != '"'
    ensures e == TokenEnd(s, start)
  {
    var i := start + 2;
    while i < |s|
      invariant (if i < |s| then IndentedEnd(s, i) else |s|) == TokenEnd(s, start)
      decreases |s| - i
    {
      if TwoAt(s, i, '\'', '\'') {
        if i + 2 < |s| && Escapes(s[i + 2]) {
          i := i + 3;
          continue;
        }
        return i + 2;
      }
      i := i + 1;
    }
    e := |s|;
  }
}
