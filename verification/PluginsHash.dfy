/** Rewriting every `caddy.pluginsHash = "..."` value of a Nix file outside its comments. Only the values
    change, and the last write wins. */
module PluginsHash {
  import opened Effects
  import opened Comments

  const MARKER: string := "caddy.pluginsHash"

  type Range = (nat, nat)

  predicate Space(c: char) { c == ' ' || ('\t' <= c <= '\r') }

  predicate StartsAt(t: string, i: nat, p: string) { i + |p| <= |t| && t[i..i + |p|] == p }

  function SkipSpace(t: string, i: nat): (j: nat)
    requires i <= |t|
    ensures i <= j <= |t| && (forall k :: i <= k < j ==> Space(t[k])) && (j < |t| ==> !Space(t[j]))
    decreases |t| - i
  {
    if i < |t| && Space(t[i]) then SkipSpace(t, i + 1) else i
  }

  function FindQuote(t: string, i: nat): (r: Option<nat>)
    requires i <= |t|
    ensures r.Some? ==> i <= r.value < |t| && t[r.value] == '"' && forall k :: i <= k < r.value ==> t[k] != '"'
    ensures r.None? ==> forall k :: i <= k < |t| ==> t[k] != '"'
    decreases |t| - i
  {
    if i == |t| then None else if t[i] == '"' then Some(i) else FindQuote(t, i + 1)
  }

  /** Past the opening quote of an assignment to a marker that ends at `i`. */
  function Opening(t: string, i: nat): (r: Option<nat>)
    requires i <= |t|
    ensures r.Some? ==> i + 2 <= r.value <= |t| && t[r.value - 1] == '"'
                        && forall k :: i <= k < r.value - 1 ==> Space(t[k]) || t[k] == '='
  {
    var j := SkipSpace(t, i);
    if j == |t| || t[j] != '=' then None
    else
      var k := SkipSpace(t, j + 1);
      if k == |t| || t[k] != '"' then None else Some(k + 1)
  }

  /** The quoted value assigned to a marker that ends at `i`. */
  function ValueAt(t: string, i: nat): (r: Option<Range>)
    requires i <= |t|
    ensures r.Some? ==>
      var (b, e) := r.value;
      && i + 2 <= b <= e < |t| && t[b - 1] == '"' && t[e] == '"' && (forall k :: b <= k < e ==> t[k] != '"')
      && forall k :: i <= k < b - 1 ==> Space(t[k]) || t[k] == '='
  {
    var b := Opening(t, i);
    if b.None? then None
    else
      var close := FindQuote(t, b.value);
      if close.None? then None else Some((b.value, close.value))
  }

  /** The values of all markers from `i` on. */
  function Ranges(t: string, i: nat): seq<Range>
    decreases |t| - i
  {
    if i >= |t| then []
    else if StartsAt(t, i, MARKER) then
      var v := ValueAt(t, i + |MARKER|);
      (if v.Some? then [v.value] else []) + Ranges(t, i + |MARKER|)
    else Ranges(t, i + 1)
  }

  /** Ascending, apart from each other, between `from` and `n`. */
  predicate Ascending(rs: seq<Range>, from: nat, n: nat) {
    if rs == [] then from <= n else from < rs[0].0 <= rs[0].1 && Ascending(rs[1..], rs[0].1, n)
  }

  /** The text from `from` on with every range replaced. */
  function Splice(s: string, rs: seq<Range>, from: nat, h: string): string
    requires Ascending(rs, from, |s|)
    decreases |rs|
  {
    if rs == [] then s[from..]
    else
      FirstFits(rs, from, |s|);
      s[from..rs[0].0] + h + Splice(s, rs[1..], rs[0].1, h)
  }

  lemma {:induction false} FirstFits(rs: seq<Range>, from: nat, n: nat)
    requires Ascending(rs, from, n)
    ensures from <= n && (rs != [] ==> rs[0].1 <= n)
    decreases |rs|
  {
    if rs != [] { FirstFits(rs[1..], rs[0].1, n); }
  }

  // ---------- the ranges are in order ----------

  lemma MarkerHasNoQuote()
    ensures forall k :: 0 <= k < |MARKER| ==> MARKER[k] != '"'
    ensures MARKER[0] == 'c' && |MARKER| == 17 && forall k :: 0 < k < |MARKER| ==> MARKER[k] != 'c'
  {
  }

  lemma MarkerChars(t: string, i: nat)
    requires StartsAt(t, i, MARKER)
    ensures t[i] == 'c' && forall k :: i <= k < i + |MARKER| ==> t[k] != '"'
  {
    MarkerHasNoQuote();
    forall k | i <= k < i + |MARKER| ensures t[k] == MARKER[k - i] {
      assert t[i..i + |MARKER|][k - i] == MARKER[k - i];
    }
  }

  predicate Clear(t: string, a: nat, b: nat) { forall k | a <= k < b :: !StartsAt(t, k, MARKER) }

  lemma {:induction false} RangesSkip(t: string, i: nat, j: nat)
    requires i <= j <= |t| && Clear(t, i, j)
    ensures Ranges(t, i) == Ranges(t, j)
    decreases j - i
  {
    if i < j { RangesSkip(t, i + 1, j); }
  }

  /** Spaces, `=` and quotes start no marker. */
  lemma GapIsClear(t: string, a: nat, b: nat)
    requires a <= b <= |t| && forall k :: a <= k < b ==> Space(t[k]) || t[k] == '=' || t[k] == '"'
    ensures Clear(t, a, b)
  {
    forall k | a <= k < b ensures !StartsAt(t, k, MARKER) {
      if StartsAt(t, k, MARKER) { MarkerChars(t, k); }
    }
  }

  /** No value starts before the next quote. */
  lemma {:induction false} RangesBeyond(t: string, i: nat, q: nat)
    requires i <= q < |t| && t[q] == '"' && forall k :: i <= k < q ==> t[k] != '"'
    requires forall j :: i < j <= |t| ==> Ascending(Ranges(t, j), j, |t|)
    requires Ascending(Ranges(t, i), i, |t|)
    ensures Ascending(Ranges(t, i), q, |t|)
    decreases q - i
  {
    if StartsAt(t, i, MARKER) {
      MarkerChars(t, i);
      var after := i + |MARKER|;
      assert after <= q;
      var v := ValueAt(t, after);
      if v.None? { RangesBeyond(t, after, q); }
    } else if i < q {
      RangesBeyond(t, i + 1, q);
    }
  }

  /** The values never overlap. */
  lemma {:induction false} RangesAscend(t: string, i: nat)
    requires i <= |t|
    ensures Ascending(Ranges(t, i), i, |t|)
    decreases |t| - i
  {
    forall j | i < j <= |t| ensures Ascending(Ranges(t, j), j, |t|) { RangesAscend(t, j); }
    if i < |t| {
      if StartsAt(t, i, MARKER) {
        var after := i + |MARKER|;
        var v := ValueAt(t, after);
        if v.Some? {
          var (b, e) := v.value;
          GapIsClear(t, after, b);
          RangesSkip(t, after, b);
          RangesBeyond(t, b, e);
        } else {
          assert Ranges(t, i) == Ranges(t, after);
          Earlier(Ranges(t, after), i, after, |t|);
        }
      } else {
        Earlier(Ranges(t, i + 1), i, i + 1, |t|);
      }
    }
  }

  lemma Earlier(rs: seq<Range>, from: nat, later: nat, n: nat)
    requires from <= later && Ascending(rs, later, n)
    ensures Ascending(rs, from, n)
  {
  }

  // ---------- what is found ----------

  /** The marker at `m` assigns the quoted text [b, e): between the marker and the opening quote there are one `=` and
      otherwise spaces, and the first quote after that closes. */
  ghost predicate Assigned(t: string, m: nat, b: nat, e: nat) {
    && StartsAt(t, m, "caddy.pluginsHash") && m + 17 < b <= e < |t|
    && t[b - 1] == '"' && t[e] == '"' && (forall k :: b <= k < e ==> t[k] != '"')
    && OneEquals(t, m + 17, b - 1)
  }

  ghost predicate OneEquals(t: string, i: nat, n: nat) { exists q :: Equals(t, i, n, q) }

  ghost predicate Equals(t: string, i: nat, n: nat, q: int) {
    i <= q < n <= |t| && t[q] == '=' && forall k | i <= k < n && k != q :: Space(t[k])
  }

  lemma ValueIsExact(t: string, m: nat, b: nat, e: nat)
    requires m + 17 <= |t| && StartsAt(t, m, MARKER)
    ensures ValueAt(t, m + 17) == Some((b, e)) <==> Assigned(t, m, b, e)
  {
    var i := m + 17;
    var j := SkipSpace(t, i);
    if j < |t| && t[j] == '=' {
      var k := SkipSpace(t, j + 1);
      if k < |t| && t[k] == '"' && k + 1 == b { assert Equals(t, i, b - 1, j); }
    }
    if Assigned(t, m, b, e) {
      var q :| Equals(t, i, b - 1, q);
      SkipsTo(t, i, q);
      SkipsTo(t, q + 1, b - 1);
    }
  }

  lemma SkipsTo(t: string, i: nat, q: nat)
    requires i <= q < |t| && !Space(t[q]) && forall k :: i <= k < q ==> Space(t[k])
    ensures SkipSpace(t, i) == q
  {
  }

  lemma MarkerCharAt(t: string, i: nat, k: nat)
    requires StartsAt(t, i, MARKER) && k < |MARKER|
    ensures i + k < i + |MARKER| <= |t| && t[i + k] == MARKER[k]
  {
    assert t[i..i + |MARKER|][k] == MARKER[k];
  }

  /** Markers do not overlap. */
  lemma MarkersApart(t: string, i: nat, m: nat)
    requires StartsAt(t, i, MARKER) && StartsAt(t, m, MARKER) && i < m
    ensures i + |MARKER| <= m
  {
    MarkerHasNoQuote();
    MarkerChars(t, m);
    hide StartsAt;
    if m < i + |MARKER| { MarkerCharAt(t, i, m - i); }
  }

  ghost predicate AssignedFrom(t: string, i: nat, r: Range) { exists m: nat :: i <= m && Assigned(t, m, r.0, r.1) }

  /** What is found is exactly what the markers assign. */
  lemma {:induction false} FoundIsExact(t: string, i: nat, r: Range)
    requires i <= |t|
    ensures r in Ranges(t, i) <==> AssignedFrom(t, i, r)
    decreases |t| - i
  {
    hide Assigned, ValueAt, StartsAt;
    MarkerHasNoQuote();
    if i == |t| {
      NoneFrom(t, i, r);
    } else if StartsAt(t, i, MARKER) {
      MarkerCharAt(t, i, 0);
      FoundIsExact(t, i + 17, r);
      ValueIsExact(t, i, r.0, r.1);
      if m: nat :| i <= m && Assigned(t, m, r.0, r.1) {
        AssignedAtMarker(t, m, r);
        if m > i { MarkersApart(t, i, m); }
      }
    } else {
      FoundIsExact(t, i + 1, r);
      if m: nat :| i <= m && Assigned(t, m, r.0, r.1) { AssignedAtMarker(t, m, r); }
    }
  }

  lemma AssignedAtMarker(t: string, m: nat, r: Range)
    requires Assigned(t, m, r.0, r.1)
    ensures StartsAt(t, m, MARKER) && m < |t|
  {
  }

  lemma NoneFrom(t: string, i: nat, r: Range)
    requires i >= |t|
    ensures !AssignedFrom(t, i, r)
  {
  }

  /** Every written value reads the hash. */
  lemma {:induction false} HashIsWritten(s: string, rs: seq<Range>, from: nat, now: nat, h: string, n: nat)
    requires Ascending(rs, from, |s|) && n < |rs|
    ensures n < |Moved(rs, from, now, |h|)|
    ensures var (b, e) := Moved(rs, from, now, |h|)[n];
            now <= b <= e <= now + |Splice(s, rs, from, h)| && Splice(s, rs, from, h)[b - now..e - now] == h
    decreases |rs|
  {
    hide Splice, Ascending, Moved;
    MovedFirst(rs, from, now, |h|, |s|);
    SpliceHead(s, rs, from, h);
    SpliceUnfold(s, rs, from, h);
    var rest, next := Splice(s, rs[1..], rs[0].1, h), now + (rs[0].0 - from) + |h|;
    if n > 0 {
      HashIsWritten(s, rs[1..], rs[0].1, next, h, n - 1);
      WrittenLater(Moved(rs[1..], rs[0].1, next, |h|), n - 1, s[from..rs[0].0] + h, rest, now, h);
    } else {
      HashPart(s[from..rs[0].0], h, rest);
    }
  }

  lemma WrittenLater(ms: seq<Range>, n: nat, head: string, rest: string, now: nat, h: string)
    requires n < |ms| && now + |head| <= ms[n].0 <= ms[n].1 <= now + |head| + |rest|
    requires rest[ms[n].0 - now - |head|..ms[n].1 - now - |head|] == h
    ensures (head + rest)[ms[n].0 - now..ms[n].1 - now] == h
  {
    LaterPart(head, rest, ms[n].0 - now - |head|, ms[n].1 - now - |head|);
  }

  lemma MovedFirst(rs: seq<Range>, from: nat, now: nat, size: nat, n: nat)
    requires rs != [] && Ascending(rs, from, n)
    ensures from < rs[0].0 <= rs[0].1
    ensures var b := rs[0].0 - from + now; Moved(rs, from, now, size) == [(b, b + size)] + Moved(rs[1..], rs[0].1, b + size, size)
    ensures |Moved(rs, from, now, size)| == |rs| && |Moved(rs[1..], rs[0].1, rs[0].0 - from + now + size, size)| == |rs| - 1
  {
    MovedLength(rs, from, now, size);
    MovedLength(rs[1..], rs[0].1, rs[0].0 - from + now + size, size);
  }

  lemma LaterPart(head: string, rest: string, b: nat, e: nat)
    requires b <= e <= |rest|
    ensures (head + rest)[|head| + b..|head| + e] == rest[b..e]
  {
  }

  lemma HashPart(gap: string, h: string, rest: string)
    ensures (gap + h + rest)[|gap|..|gap| + |h|] == h
  {
  }

  // ---------- the edit ----------

  /** The values of a file are exactly what markers assign in its text with the comments blanked, each once. */
  lemma ValuesAreExact(source: string)
    ensures forall r: Range :: r in Values(source) <==> exists m: nat :: Assigned(Mask(source), m, r.0, r.1)
    ensures forall i, j :: 0 <= i < j < |Values(source)| ==> Values(source)[i].0 < Values(source)[j].0
  {
    hide Assigned, Mask, Ranges, Ascending;
    var t := Mask(source);
    forall r: Range ensures r in Values(source) <==> exists m: nat :: Assigned(t, m, r.0, r.1) { FoundIsExact(t, 0, r); }
    AscendingOnce(Values(source), 0, |source|);
  }

  lemma {:induction false} AscendingOnce(rs: seq<Range>, from: nat, n: nat)
    requires Ascending(rs, from, n)
    ensures forall i :: 0 <= i < |rs| ==> from < rs[i].0
    ensures forall i, j :: 0 <= i < j < |rs| ==> rs[i].0 < rs[j].0
    decreases |rs|
  {
    if rs != [] {
      AscendingOnce(rs[1..], rs[0].1, n);
      assert forall i :: 0 < i < |rs| ==> rs[i] == rs[1..][i - 1];
    }
  }


  function Values(source: string): (rs: seq<Range>)
    ensures Ascending(rs, 0, |source|)
  {
    RangesAscend(Mask(source), 0);
    Ranges(Mask(source), 0)
  }

  function Written(source: string, hash: string): string { Splice(source, Values(source), 0, hash) }

  /** Replace every value, copying what lies between; also the number of values. */
  method SetPluginsHash(source: string, hash: string) returns (out: string, count: nat)
    ensures out == Written(source, hash) && count == |Values(source)|
  {
    hide Ranges, Mask, Ascending, Splice;
    var masked := MaskComments(source);
    RangesAscend(masked[..], 0);
    var ranges := Ranges(masked[..], 0);
    out := "";
    var copied: nat := 0;
    for i := 0 to |ranges|
      invariant copied <= |source| && Ascending(ranges[i..], copied, |source|)
      invariant out + Splice(source, ranges[i..], copied, hash) == Splice(source, ranges, 0, hash)
    {
      assert ranges[i..][1..] == ranges[i + 1..] && ranges[i..][0] == ranges[i];
      SpliceUnfold(source, ranges[i..], copied, hash);
      ghost var rest := Splice(source, ranges[i + 1..], ranges[i].1, hash);
      Regroup(out, source[copied..ranges[i].0] + hash, rest);
      Regroup(out, source[copied..ranges[i].0], hash);
      out := out + source[copied..ranges[i].0] + hash;
      copied := ranges[i].1;
    }
    NoRanges(source, copied, hash);
    assert ranges[|ranges|..] == [];
    out := out + source[copied..];
    count := |ranges|;
  }

  /** Where a position outside the values ends up. */
  function Moves(rs: seq<Range>, p: nat, size: int): int {
    if rs == [] || p < rs[0].0 then 0 else size + rs[0].0 - rs[0].1 + Moves(rs[1..], p, size)
  }

  /** No byte outside the values changes. */
  lemma {:induction false} OutsideIsKept(s: string, rs: seq<Range>, from: nat, h: string, p: nat)
    requires Ascending(rs, from, |s|) && from <= p < |s| && forall r :: r in rs ==> !(r.0 <= p < r.1)
    ensures 0 <= p - from + Moves(rs, p, |h|) < |Splice(s, rs, from, h)|
    ensures Splice(s, rs, from, h)[p - from + Moves(rs, p, |h|)] == s[p]
    decreases |rs|
  {
    if rs == [] {
      NoRanges(s, from, h);
    } else {
      SpliceHead(s, rs, from, h);
      hide Splice, Ascending;
      if p >= rs[0].0 {
        assert rs[0] in rs;
        OutsideIsKept(s, rs[1..], rs[0].1, h, p);
      }
    }
  }

  // ---------- writing twice: the text ----------

  /** What a written hash must not contain. */
  predicate Plain(h: string) {
    (forall k | 0 <= k < |h| :: h[k] != '"' && h[k] != '\\') && forall k | 0 <= k < |h| :: !StartsAt(h, k, MARKER)
  }

  predicate AllClear(t: string, rs: seq<Range>) { forall r | r in rs :: Clear(t, r.0, r.1) }

  /** The ranges after every value became `size` long, for texts that correspond at `from` and `now`. */
  function Moved(rs: seq<Range>, from: nat, now: nat, size: nat): seq<Range> {
    if rs == [] then []
    else
      var b := (if rs[0].0 < from then 0 else rs[0].0 - from) + now;
      [(b, b + size)] + Moved(rs[1..], rs[0].1, b + size, size)
  }

  /** From `i` in `t` and `j` in `u` the texts agree on `g` bytes, which end in a quote or end both texts. */
  ghost predicate Agree(t: string, i: nat, u: string, j: nat, g: nat) {
    && i + g <= |t| && j + g <= |u| && t[i..i + g] == u[j..j + g]
    && ((g > 0 && t[i + g - 1] == '"') || (i + g == |t| && j + g == |u|))
  }

  lemma AgreeAt(t: string, i: nat, u: string, j: nat, g: nat, k: nat)
    requires Agree(t, i, u, j, g) && k < g
    ensures i + k < |t| && j + k < |u| && t[i + k] == u[j + k]
  {
    assert t[i..i + g][k] == u[j..j + g][k];
  }

  lemma AgreeRest(t: string, i: nat, u: string, j: nat, g: nat, k: nat)
    requires Agree(t, i, u, j, g) && k <= g && (k < g || (i + g == |t| && j + g == |u|))
    ensures Agree(t, i + k, u, j + k, g - k)
  {
    assert t[i..i + g][k..] == t[i + k..i + g] && u[j..j + g][k..] == u[j + k..j + g];
  }

  lemma {:induction false} SkipSame(t: string, i: nat, u: string, j: nat, g: nat)
    requires Agree(t, i, u, j, g)
    ensures SkipSpace(t, i) - i == SkipSpace(u, j) - j <= g
    ensures SkipSpace(t, i) - i == g ==> i + g == |t| && j + g == |u|
    decreases g
  {
    if g > 0 {
      AgreeAt(t, i, u, j, g, 0);
      if Space(t[i]) {
        AgreeRest(t, i, u, j, g, 1);
        SkipSame(t, i + 1, u, j + 1, g - 1);
      }
    }
  }

  lemma OpeningSame(t: string, i: nat, u: string, j: nat, g: nat)
    requires Agree(t, i, u, j, g)
    ensures Opening(t, i).Some? <==> Opening(u, j).Some?
    ensures Opening(t, i).Some? ==> Opening(t, i).value - i == Opening(u, j).value - j <= g
  {
    hide Agree, Space, SkipSpace;
    SkipSame(t, i, u, j, g);
    var n := SkipSpace(t, i) - i;
    if n < g {
      AgreeAt(t, i, u, j, g, n);
      if t[i + n] == '=' {
        AgreeStep(t, i, u, j, g, n);
        SkipSame(t, i + n + 1, u, j + n + 1, g - n - 1);
        var m := SkipSpace(t, i + n + 1) - i;
        if m < g { AgreeAt(t, i, u, j, g, m); }
      }
    }
  }

  /** A byte that is not the closing quote leaves the rest in agreement. */
  lemma AgreeStep(t: string, i: nat, u: string, j: nat, g: nat, n: nat)
    requires Agree(t, i, u, j, g) && n < g && t[i + n] != '"'
    ensures Agree(t, i + n + 1, u, j + n + 1, g - n - 1)
  {
    if n == g - 1 { assert i + g == |t| && j + g == |u|; }
    AgreeRest(t, i, u, j, g, n + 1);
  }

  lemma MarkerSame(t: string, i: nat, u: string, j: nat, g: nat)
    requires Agree(t, i, u, j, g)
    ensures StartsAt(t, i, MARKER) <==> StartsAt(u, j, MARKER)
    ensures StartsAt(t, i, MARKER) ==> |MARKER| < g || (|MARKER| == g && i + g == |t| && j + g == |u|)
  {
    if StartsAt(t, i, MARKER) { MarkerChars(t, i); }
    if StartsAt(u, j, MARKER) { MarkerChars(u, j); }
    if g > 0 { AgreeAt(t, i, u, j, g, g - 1); }
    if |MARKER| <= g {
      assert t[i..i + g][..|MARKER|] == t[i..i + |MARKER|] && u[j..j + g][..|MARKER|] == u[j..j + |MARKER|];
    }
  }

  lemma {:induction false} RangesQuoted(t: string, i: nat)
    requires i <= |t|
    ensures forall r :: r in Ranges(t, i) ==> i + 2 <= r.0 <= r.1 < |t| && t[r.0 - 1] == '"' && t[r.1] == '"'
                                              && forall k :: r.0 <= k < r.1 ==> t[k] != '"'
    decreases |t| - i
  {
    if i < |t| {
      if StartsAt(t, i, MARKER) {
        MarkerHasNoQuote();
        RangesQuoted(t, i + |MARKER|);
      } else {
        RangesQuoted(t, i + 1);
      }
    }
  }

  /** The length of the text before the first value, its opening quote included. */
  function Gap(rs: seq<Range>, i: nat, n: nat): nat
    requires Ascending(rs, i, n)
  {
    if rs == [] then n - i else rs[0].0 - i
  }

  lemma SpliceAgrees(t: string, i: nat, u: string, j: nat, h: string)
    requires i <= |t| && j <= |u| && Ascending(Ranges(t, i), i, |t|) && u[j..] == Splice(t, Ranges(t, i), i, h)
    ensures Agree(t, i, u, j, Gap(Ranges(t, i), i, |t|))
  {
    hide Ranges;
    var rs := Ranges(t, i);
    RangesQuoted(t, i);
    FirstFits(rs, i, |t|);
    if rs != [] {
      assert rs[0] in rs;
      assert u[j..][..rs[0].0 - i] == t[i..rs[0].0];
    }
  }

  /** Dropping a stretch before the first value. */
  lemma SpliceDrop(s: string, rs: seq<Range>, from: nat, to: nat, h: string)
    requires from <= to <= |s| && Ascending(rs, from, |s|) && Ascending(rs, to, |s|)
    ensures Splice(s, rs, from, h) == s[from..to] + Splice(s, rs, to, h)
  {
    if rs != [] {
      FirstFits(rs, from, |s|);
      assert s[from..rs[0].0] == s[from..to] + s[to..rs[0].0];
    }
  }

  lemma MovedFrom(rs: seq<Range>, i: nat, j: nat, k: nat, size: nat)
    requires rs == [] || rs[0].0 >= i + k
    ensures Moved(rs, i, j, size) == Moved(rs, i + k, j + k, size)
  {
  }

  lemma SomeRange(rs: seq<Range>)
    ensures rs == [] || exists r :: r in rs
  {
    if rs != [] { assert rs[0] in rs; }
  }

  /** A value that does not close leaves no value behind it. */
  lemma NoValue(t: string, i: nat, u: string, j: nat, h: string)
    requires i <= |t| && j <= |u| && Ascending(Ranges(t, i), i, |t|) && u[j..] == Splice(t, Ranges(t, i), i, h)
    requires ValueAt(t, i).None?
    ensures ValueAt(u, j).None?
  {
    hide Ranges;
    var rs := Ranges(t, i);
    SpliceAgrees(t, i, u, j, h);
    var g := Gap(rs, i, |t|);
    OpeningSame(t, i, u, j, g);
    if Opening(t, i).Some? {
      var b := Opening(t, i).value;
      RangesQuoted(t, i);
      forall r | r in rs ensures t[r.1] == '"' && r.1 >= b { }
      SomeRange(rs);
      forall k | j + (b - i) <= k < |u| ensures u[k] != '"' { AgreeAt(t, i, u, j, g, k - j); }
    }
  }

  /** A value that closes is replaced by the hash, which closes at the same quote. */
  lemma NewValue(t: string, i: nat, u: string, j: nat, b: nat, e: nat, rest: string, h: string)
    requires i <= |t| && j <= |u| && ValueAt(t, i) == Some((b, e)) && Plain(h)
    requires u[j..] == t[i..b] + (h + rest) && rest != "" && rest[0] == '"'
    ensures ValueAt(u, j) == Some((j + (b - i), j + (b - i) + |h|))
  {
    hide StartsAt;
    assert u[j..][..b - i] == t[i..b];
    assert u[j..j + (b - i)] == t[i..i + (b - i)];
    OpeningSame(t, i, u, j, b - i);
    var c := j + (b - i);
    forall k | c <= k < c + |h| ensures u[k] == h[k - c] { assert u[k] == u[j..][k - j]; }
    assert u[c + |h|] == u[j..][b - i + |h|] == '"';
  }

  /** No marker starts inside the written value. */
  lemma HashIsClear(u: string, c: nat, h: string)
    requires Plain(h) && c + |h| < |u| && u[c..c + |h|] == h && u[c + |h|] == '"'
    ensures Clear(u, c, c + |h|)
  {
    forall k | c <= k < c + |h| ensures !StartsAt(u, k, MARKER) {
      if StartsAt(u, k, MARKER) {
        MarkerChars(u, k);
        StartsInside(u, c, h, k - c);
      }
    }
  }

  lemma SubSlice(u: string, c: nat, f: nat, n: nat, m: nat)
    requires c <= f <= |u| && n <= m <= f - c
    ensures u[c..f][n..m] == u[c + n..c + m]
  {
    var x, y := u[c..f][n..m], u[c + n..c + m];
    forall k | 0 <= k < |x| ensures x[k] == y[k] { assert x[k] == u[c..f][n + k]; }
  }

  lemma StartsInside(u: string, c: nat, h: string, n: nat)
    requires c + |h| <= |u| && u[c..c + |h|] == h && n + |MARKER| <= |h|
    ensures StartsAt(u, c + n, MARKER) <==> StartsAt(h, n, MARKER)
  {
    SubSlice(u, c, c + |h|, n, n + |MARKER|);
  }

  /** The values of the rewritten text are the rewritten values. */
  lemma {:induction false} RangesMove(t: string, i: nat, u: string, j: nat, h: string)
    requires i <= |t| && j <= |u| && Ascending(Ranges(t, i), i, |t|) && u[j..] == Splice(t, Ranges(t, i), i, h)
    requires Plain(h) && AllClear(t, Ranges(t, i))
    ensures Ranges(u, j) == Moved(Ranges(t, i), i, j, |h|)
    decreases |t| - i, 2
  {
    hide AllClear, Plain, StartsAt, Agree;
    SpliceAgrees(t, i, u, j, h);
    var g := Gap(Ranges(t, i), i, |t|);
    MarkerSame(t, i, u, j, g);
    if i == |t| {
      assert u[j..] == "";
    } else if !StartsAt(t, i, MARKER) {
      RangesAscend(t, i + 1);
      SpliceDrop(t, Ranges(t, i), i, i + 1, h);
      assert u[j + 1..] == u[j..][1..];
      RangesMove(t, i + 1, u, j + 1, h);
      MovedFrom(Ranges(t, i), i, j, 1, |h|);
    } else {
      RangesMoveAtMarker(t, i, u, j, h);
    }
  }

  lemma {:induction false} RangesMoveAtMarker(t: string, i: nat, u: string, j: nat, h: string)
    requires i < |t| && j <= |u| && Ascending(Ranges(t, i), i, |t|) && u[j..] == Splice(t, Ranges(t, i), i, h)
    requires Plain(h) && AllClear(t, Ranges(t, i)) && StartsAt(t, i, MARKER) && StartsAt(u, j, MARKER)
    ensures Ranges(u, j) == Moved(Ranges(t, i), i, j, |h|)
    decreases |t| - i, 1
  {
    hide AllClear, Plain, Agree, ValueAt, StartsAt, Ranges, Clear, Splice, Moved, Ascending;
    var n := |MARKER|;
    MarkerHasNoQuote();
    MarkerCharAt(t, i, 0);
    MarkerCharAt(u, j, 0);
    RangesAtMarker(t, i);
    RangesAtMarker(u, j);
    var rs, rest := Ranges(t, i), Ranges(t, i + n);
    RangesAscend(t, i + n);
    var v := ValueAt(t, i + n);
    if v.None? {
      assert rs == rest;
      SpliceDrop(t, rs, i, i + n, h);
      assert u[j + n..] == u[j..][n..];
      NoValue(t, i + n, u, j + n, h);
      RangesMove(t, i + n, u, j + n, h);
      MovedFrom(rs, i, j, n, |h|);
    } else {
      var (b, e) := v.value;
      assert rs == [v.value] + rest && rs[1..] == rest;
      GapIsClear(t, i + n, b);
      RangesSkip(t, i + n, b);
      ClearValue(t, rs);
      RangesSkip(t, b, e);
      RangesMoveAtValue(t, i, u, j, b, e, h);
    }
  }

  lemma ClearValue(t: string, rs: seq<Range>)
    requires AllClear(t, rs) && rs != []
    ensures Clear(t, rs[0].0, rs[0].1) && AllClear(t, rs[1..])
  {
    hide Clear;
    assert rs[0] in rs;
  }

  lemma {:induction false} RangesMoveAtValue(t: string, i: nat, u: string, j: nat, b: nat, e: nat, h: string)
    requires i < |t| && j <= |u| && Plain(h) && StartsAt(t, i, MARKER) && StartsAt(u, j, MARKER)
    requires ValueAt(t, i + |MARKER|) == Some((b, e)) && Ranges(t, i) == [(b, e)] + Ranges(t, e)
    requires Ascending(Ranges(t, i), i, |t|) && u[j..] == Splice(t, Ranges(t, i), i, h) && AllClear(t, Ranges(t, i))
    ensures Ranges(u, j) == Moved(Ranges(t, i), i, j, |h|)
    decreases |t| - i, 0
  {
    hide AllClear, Plain, Agree, ValueAt, StartsAt, Ranges, Splice, Ascending, Moved;
    var n, rs, rest := |MARKER|, Ranges(t, i), Ranges(t, e);
    MarkerHasNoQuote();
    assert rs[1..] == rest;
    ClearValue(t, rs);
    SpliceUnfold(t, rs, i, h);
    var tail := Splice(t, rest, e, h);
    SpliceFirst(t, rest, e, h);
    var c := j + (b - i);
    var f := c + |h|;
    Regroup(t[i..b], h, tail);
    Cut(u, j, t[i..b], h, tail);
    Rewritten(t, i, u, j, b, e, tail, h);
    RangesAtMarker(u, j);
    RangesSkip(u, j + n, f);
    RangesMove(t, e, u, f, h);
    MovedHead(rs, i, j, |h|);
  }

  lemma RangesAtMarker(t: string, i: nat)
    requires i < |t| && StartsAt(t, i, MARKER) && i + |MARKER| <= |t|
    ensures Ranges(t, i) == (if ValueAt(t, i + |MARKER|).Some? then [ValueAt(t, i + |MARKER|).value] else []) + Ranges(t, i + |MARKER|)
  {
    hide ValueAt, StartsAt;
  }

  /** A marker whose value was rewritten assigns the written value, and nothing else up to its end. */
  lemma Rewritten(t: string, i: nat, u: string, j: nat, b: nat, e: nat, tail: string, h: string)
    requires i + |MARKER| <= |t| && j <= |u| && Plain(h) && ValueAt(t, i + |MARKER|) == Some((b, e))
    requires u[j..] == t[i..b] + (h + tail) && tail != "" && tail[0] == '"'
    ensures var c := j + (b - i);
            && j + |MARKER| <= |u| && c + |h| <= |u|
            && ValueAt(u, j + |MARKER|) == Some((c, c + |h|)) && Clear(u, j + |MARKER|, c + |h|)
  {
    hide Plain, StartsAt, ValueAt, Clear;
    var n, c := |MARKER|, j + (b - i);
    ValueShape(t, i + n);
    Cut(u, j, t[i..b], h, tail);
    SameStretch(t, i, u, j, b, n, h + tail);
    NewValue(t, i + n, u, j + n, b, e, tail, h);
    GapIsClear(u, j + n, c);
    HashIsClear(u, c, h);
    ClearJoin(u, j + n, c, c + |h|);
  }

  lemma SameStretch(t: string, i: nat, u: string, j: nat, b: nat, n: nat, more: string)
    requires i + n <= b <= |t| && j <= |u| && u[j..] == t[i..b] + more
    ensures j + n <= |u| && u[j + n..] == t[i + n..b] + more
    ensures forall k :: j + n <= k < j + (b - i) ==> u[k] == t[k - j + i]
  {
    assert u[j..][n..] == u[j + n..];
    assert t[i..b][n..] == t[i + n..b];
    forall k | j + n <= k < j + (b - i) ensures u[k] == t[k - j + i] { assert u[k] == u[j..][k - j] == t[i..b][k - j]; }
  }

  lemma ValueShape(t: string, i: nat)
    requires i <= |t| && ValueAt(t, i).Some?
    ensures var (b, e) := ValueAt(t, i).value;
            && i + 2 <= b <= e < |t| && t[e] == '"' && forall k :: i <= k < b ==> Space(t[k]) || t[k] == '=' || t[k] == '"'
  {
  }

  lemma ClearJoin(t: string, a: nat, b: nat, c: nat)
    requires Clear(t, a, b) && Clear(t, b, c)
    ensures Clear(t, a, c)
  {
    hide StartsAt;
  }

  /** The rest after a value starts with its closing quote. */
  lemma SpliceFirst(t: string, rest: seq<Range>, e: nat, h: string)
    requires e < |t| && Ascending(rest, e, |t|)
    ensures var tail := Splice(t, rest, e, h); tail != "" && tail[0] == t[e]
  {
    if rest != [] { FirstFits(rest, e, |t|); }
  }

  lemma Cut(u: string, j: nat, a: string, h: string, tail: string)
    requires j <= |u| && u[j..] == a + (h + tail)
    ensures var c := j + |a|;
            var f := c + |h|;
            && f <= |u| && u[j..c] == a && u[c..f] == h && u[f..] == tail && (tail != "" ==> f < |u| && u[f] == tail[0])
  {
    var c := j + |a|;
    var f := c + |h|;
    assert u[j..c] == u[j..][..|a|] && u[c..f] == u[j..][|a|..|a| + |h|] && u[f..] == u[j..][|a| + |h|..];
    if tail != "" { assert u[f] == u[f..][0]; }
  }

  // ---------- writing twice: the comments ----------

  /** Every range is exactly the inside of a string token: the markers that found values are in code, and no
      value holds an escaped quote. */
  predicate Placed(s: string, i: nat, rs: seq<Range>)
    requires i <= |s|
    decreases |s| - i
  {
    if i == |s| then rs == []
    else
      var e := TokenEnd(s, i);
      if rs == [] || e < rs[0].0 then Placed(s, e, rs)
      else s[i] == '"' && i + 1 == rs[0].0 && e == rs[0].1 + 1 && Placed(s, e, rs[1..])
  }

  lemma {:induction false} StringThrough(u: string, c: nat, h: string)
    requires c + |h| < |u| && u[c..c + |h|] == h && u[c + |h|] == '"' && forall k :: 0 <= k < |h| ==> h[k] != '"' && h[k] != '\\'
    ensures StringEnd(u, c) == c + |h| + 1
    decreases |h|
  {
    if h != "" {
      assert u[c] == u[c..c + |h|][0] == h[0];
      assert u[c + 1..c + |h|] == u[c..c + |h|][1..] == h[1..];
      StringThrough(u, c + 1, h[1..]);
    }
  }

  /** A value's token becomes the string of the written hash. */
  lemma WrittenToken(u: string, j: nat, h: string)
    requires Plain(h) && j + |h| + 1 < |u| && u[j] == '"' && u[j + 1..j + 1 + |h|] == h && u[j + 1 + |h|] == '"'
    ensures TokenEnd(u, j) == j + |h| + 2 && !IsComment(u, j)
  {
    hide StartsAt;
    StringThrough(u, j + 1, h);
  }

  lemma {:induction false} MaskThroughSplice(s: string, i: nat, m: string, u: string, j: nat, rs: seq<Range>, h: string)
    requires i <= |s| == |m| && j <= |u| && m[i..] == MaskFrom(s, i) && Ascending(rs, i, |s|)
    requires u[j..] == Splice(s, rs, i, h) && Placed(s, i, rs) && Plain(h) && Quoted(m, rs)
    ensures MaskFrom(u, j) == Splice(m, rs, i, h)
    decreases |s| - i, 1
  {
    hide MaskFrom, TokenEnd, IsComment, MaskedToken, Plain;
    if i == |s| {
      assert u[j..] == "" && j == |u|;
      NothingToMask(u);
      NothingToMask(m);
    } else {
      var e := TokenEnd(s, i);
      MaskSplits(s, i, m);
      if rs == [] || e < rs[0].0 {
        MaskPastToken(s, i, m, u, j, rs, h);
      } else {
        MaskPastValue(s, i, m, u, j, rs, h);
      }
    }
  }

  lemma PlacedNext(s: string, i: nat, rs: seq<Range>)
    requires i < |s| && Placed(s, i, rs) && (rs == [] || TokenEnd(s, i) < rs[0].0)
    ensures Placed(s, TokenEnd(s, i), rs)
  {
    hide TokenEnd;
  }

  /** A stretch that continues alike is the same token. */
  lemma TokenThrough(s: string, i: nat, u: string, j: nat, tail: string)
    requires i < |s| && j <= |u| && u[j..] == s[i..TokenEnd(s, i)] + tail
    requires tail == "" <==> TokenEnd(s, i) == |s|
    requires TokenEnd(s, i) < |s| ==> tail[0] == s[TokenEnd(s, i)]
    ensures var f := j + (TokenEnd(s, i) - i);
            && j < |u| && f <= |u| && TokenEnd(u, j) == f && u[f..] == tail && MaskedToken(u, j) == MaskedToken(s, i)
  {
    hide TokenEnd, IsComment;
    var e := TokenEnd(s, i);
    var f := j + (e - i);
    assert u[f..] == u[j..][e - i..] == tail;
    assert u[j..f] == u[j..][..e - i] == s[i..e];
    forall k | i <= k < e ensures s[k] == u[j + (k - i)] { assert s[i..e][k - i] == u[j..f][k - i]; }
    if e < |s| { assert u[f] == u[f..][0]; }
    SameToken(s, i, u, j);
  }

  /** A token before the next value is the same token in the rewritten text. */
  lemma {:induction false} MaskPastToken(s: string, i: nat, m: string, u: string, j: nat, rs: seq<Range>, h: string)
    requires i < |s| == |m| && j <= |u| && Ascending(rs, i, |s|) && u[j..] == Splice(s, rs, i, h) && Plain(h)
    requires Quoted(m, rs) && Placed(s, i, rs) && (rs == [] || TokenEnd(s, i) < rs[0].0)
    requires m[i..TokenEnd(s, i)] == MaskedToken(s, i) && m[TokenEnd(s, i)..] == MaskFrom(s, TokenEnd(s, i))
    ensures MaskFrom(u, j) == Splice(m, rs, i, h)
    decreases |s| - i, 0
  {
    hide *;
    var e := TokenEnd(s, i);
    PlacedNext(s, i, rs);
    Later(rs, i, e, |s|);
    SpliceDrop(s, rs, i, e, h);
    SpliceDrop(m, rs, i, e, h);
    SpliceEmpty(s, rs, e, h);
    if e < |s| { SpliceFirst(s, rs, e, h); }
    TokenThrough(s, i, u, j, Splice(s, rs, e, h));
    MaskStep(u, j);
    MaskThroughSplice(s, e, m, u, j + (e - i), rs, h);
  }

  lemma Later(rs: seq<Range>, from: nat, to: nat, n: nat)
    requires Ascending(rs, from, n) && from <= to <= n && (rs == [] || to < rs[0].0)
    ensures Ascending(rs, to, n)
  {
  }

  lemma SpliceEmpty(s: string, rs: seq<Range>, e: nat, h: string)
    requires e <= |s| && Ascending(rs, e, |s|)
    ensures Splice(s, rs, e, h) == "" <==> e == |s|
  {
    FirstFits(rs, e, |s|);
  }

  lemma PlacedBeyond(s: string, i: nat, rs: seq<Range>)
    requires i <= |s| && Placed(s, i, rs)
    ensures rs == [] || i < rs[0].0
  {
  }

  predicate Quoted(m: string, rs: seq<Range>) { forall r | r in rs :: r.1 < |m| && m[r.1] == '"' }

  lemma ValueToken(s: string, i: nat, m: string, rs: seq<Range>)
    requires i < |s| == |m| && Ascending(rs, i, |s|) && Quoted(m, rs)
    requires Placed(s, i, rs) && rs != [] && TokenEnd(s, i) >= rs[0].0
    requires m[i..TokenEnd(s, i)] == MaskedToken(s, i)
    ensures var e := TokenEnd(s, i);
            && rs[0] == (i + 1, e - 1) && i + 1 <= e - 1 && s[i] == m[i] == s[e - 1] == m[e - 1] == '"'
            && Ascending(rs[1..], e, |s|) && Placed(s, e, rs[1..])
  {
    hide TokenEnd, IsComment;
    var e := TokenEnd(s, i);
    TokenKinds(s, i);
    FirstFits(rs, i, |s|);
    assert rs[0] in rs;
    assert m[i] == m[i..e][0] == s[i..e][0] == s[i];
    assert m[e - 1] == m[i..e][e - 1 - i] == s[i..e][e - 1 - i] == s[e - 1];
    PlacedBeyond(s, e, rs[1..]);
    Later(rs[1..], e - 1, e, |s|);
  }

  lemma SpliceValue(x: string, rs: seq<Range>, i: nat, e: nat, h: string)
    requires i + 2 <= e <= |x| && Ascending(rs, i, |x|) && rs != [] && rs[0] == (i + 1, e - 1) && Ascending(rs[1..], e, |x|)
    requires x[i] == '"' && x[e - 1] == '"'
    ensures Splice(x, rs, i, h) == "\"" + (h + ("\"" + Splice(x, rs[1..], e, h)))
  {
    hide Splice, Ascending;
    SpliceUnfold(x, rs, i, h);
    SpliceDrop(x, rs[1..], e - 1, e, h);
    assert x[i..i + 1] == "\"" && x[e - 1..e] == "\"";
    Regroup("\"", h, "\"" + Splice(x, rs[1..], e, h));
  }

  lemma SpliceUnfold(x: string, rs: seq<Range>, from: nat, h: string)
    requires Ascending(rs, from, |x|) && rs != []
    ensures rs[0].1 <= |x| && from < rs[0].0 <= rs[0].1 && Ascending(rs[1..], rs[0].1, |x|)
    ensures Splice(x, rs, from, h) == x[from..rs[0].0] + h + Splice(x, rs[1..], rs[0].1, h)
  {
    FirstFits(rs, from, |x|);
  }

  lemma Regroup(a: string, b: string, c: string)
    ensures a + b + c == a + (b + c)
  {
  }

  lemma StringOfHash(u: string, j: nat, h: string, tail: string)
    requires j <= |u| && u[j..] == "\"" + (h + ("\"" + tail)) && Plain(h)
    ensures var f := j + |h| + 2;
            && f <= |u| && j < |u| && u[f..] == tail && TokenEnd(u, j) == f && MaskedToken(u, j) == "\"" + (h + "\"")
  {
    hide Plain, TokenEnd, IsComment;
    var f := j + |h| + 2;
    Cut(u, j, "\"", h, "\"" + tail);
    assert u[f..] == u[f - 1..][1..] == tail;
    assert u[j] == u[j..j + 1][0];
    WrittenToken(u, j, h);
    assert u[j..f] == u[j..][..|h| + 2];
  }

  /** A value's token is replaced as a whole. */
  lemma {:induction false} MaskPastValue(s: string, i: nat, m: string, u: string, j: nat, rs: seq<Range>, h: string)
    requires i < |s| == |m| && j <= |u| && Ascending(rs, i, |s|) && u[j..] == Splice(s, rs, i, h) && Plain(h)
    requires Quoted(m, rs) && Placed(s, i, rs) && rs != [] && TokenEnd(s, i) >= rs[0].0
    requires m[i..TokenEnd(s, i)] == MaskedToken(s, i) && m[TokenEnd(s, i)..] == MaskFrom(s, TokenEnd(s, i))
    ensures MaskFrom(u, j) == Splice(m, rs, i, h)
    decreases |s| - i, 0
  {
    hide MaskFrom, TokenEnd, IsComment, Plain, Ascending, Splice, Placed, MaskedToken;
    var e, rest := TokenEnd(s, i), rs[1..];
    ValueToken(s, i, m, rs);
    SpliceValue(s, rs, i, e, h);
    SpliceValue(m, rs, i, e, h);
    StringOfHash(u, j, h, Splice(s, rest, e, h));
    MaskStep(u, j);
    var f := j + |h| + 2;
    forall r | r in rest ensures r.1 < |m| && m[r.1] == '"' { assert r in rs; }
    MaskThroughSplice(s, e, m, u, f, rest, h);
  }

  // ---------- the last write wins ----------

  lemma SpliceHead(s: string, rs: seq<Range>, i: nat, h: string)
    requires rs != [] && Ascending(rs, i, |s|)
    ensures i < rs[0].0 <= rs[0].1 <= |s| && Ascending(rs[1..], rs[0].1, |s|)
    ensures Splice(s, rs, i, h) == s[i..rs[0].0] + (h + Splice(s, rs[1..], rs[0].1, h))
  {
    FirstFits(rs, i, |s|);
    assert s[i..rs[0].0] + h + Splice(s, rs[1..], rs[0].1, h) == s[i..rs[0].0] + (h + Splice(s, rs[1..], rs[0].1, h));
  }

  lemma {:induction false} SpliceTwice(s: string, i: nat, u: string, j: nat, rs: seq<Range>, h1: string, h2: string)
    requires i <= |s| && j <= |u| && Ascending(rs, i, |s|) && u[j..] == Splice(s, rs, i, h1)
    ensures Ascending(Moved(rs, i, j, |h1|), j, |u|)
    ensures Splice(u, Moved(rs, i, j, |h1|), j, h2) == Splice(s, rs, i, h2)
    decreases |rs|
  {
    hide *;
    if rs == [] {
      NoRanges(s, i, h1);
      NoRanges(s, i, h2);
      NoRanges(u, j, h2);
      NoneMoved(i, j, |h1|);
    } else {
      var b, e, rest := rs[0].0, rs[0].1, rs[1..];
      SpliceHead(s, rs, i, h1);
      SpliceHead(s, rs, i, h2);
      Cut(u, j, s[i..b], h1, Splice(s, rest, e, h1));
      var c := j + (b - i);
      SpliceTwice(s, e, u, c + |h1|, rest, h1, h2);
      var after := Moved(rest, e, c + |h1|, |h1|);
      MovedHead(rs, i, j, |h1|);
      var moved := [(c, c + |h1|)] + after;
      assert moved[1..] == after;
      AscendingHead(moved, j, |u|);
      SpliceHead(u, moved, j, h2);
    }
  }

  lemma NoRanges(s: string, i: nat, h: string)
    requires i <= |s|
    ensures Ascending([], i, |s|) && Splice(s, [], i, h) == s[i..]
  {
  }

  lemma NoneMoved(i: nat, j: nat, size: nat)
    ensures Moved([], i, j, size) == []
  {
  }

  lemma MovedHead(rs: seq<Range>, i: nat, j: nat, size: nat)
    requires rs != [] && i <= rs[0].0
    ensures var c := j + (rs[0].0 - i); Moved(rs, i, j, size) == [(c, c + size)] + Moved(rs[1..], rs[0].1, c + size, size)
  {
  }

  lemma AscendingHead(rs: seq<Range>, from: nat, n: nat)
    requires rs != [] && from < rs[0].0 <= rs[0].1 && Ascending(rs[1..], rs[0].1, n)
    ensures Ascending(rs, from, n)
  {
  }

  /** The values lie in code, without escapes and without markers. */
  predicate Settable(source: string) { Placed(source, 0, Values(source)) && AllClear(Mask(source), Values(source)) }

  /** Writing one hash and then another is writing the other, with the same count. */
  lemma LastWriteWins(source: string, first: string, second: string)
    requires Settable(source) && Plain(first)
    ensures Written(Written(source, first), second) == Written(source, second)
    ensures |Values(Written(source, first))| == |Values(source)|
  {
    hide Plain, Placed, AllClear, Ranges, MaskFrom;
    var m, rs := Mask(source), Values(source);
    var u := Splice(source, rs, 0, first);
    RangesAscend(m, 0);
    RangesQuoted(m, 0);
    assert u[0..] == u && m[0..] == m;
    MaskThroughSplice(source, 0, m, u, 0, rs, first);
    var n := Mask(u);
    assert n[0..] == n;
    RangesMove(m, 0, n, 0, first);
    SpliceTwice(source, 0, u, 0, rs, first, second);
    MovedLength(rs, 0, 0, |first|);
  }

  lemma {:induction false} MovedLength(rs: seq<Range>, i: nat, j: nat, size: nat)
    ensures |Moved(rs, i, j, size)| == |rs|
    decreases |rs|
  {
    if rs != [] { MovedLength(rs[1..], rs[0].1, (if rs[0].0 < i then 0 else rs[0].0 - i) + j + size, size); }
  }
}
