/** The links of an archive in the tree it unpacks to: resolving a link segment by segment, through links and
    directories, against the component stack of the archive check. */
module LinkResolution {
  import opened Effects
  import opened Links

  // ---------- the unpacked tree ----------

  /** The file or link unpacked at a place; a later entry replaces an earlier one. */
  function Holding(entries: seq<Entry>, p: Parts): Option<Kind> {
    if entries == [] then None
    else
      var e := entries[|entries| - 1];
      if Real(e.path) == p && (e.kind.File? || e.kind.Link?) then Some(e.kind) else Holding(entries[..|entries| - 1], p)
  }

  /** The root, an entry's place or a place above one, unless a file or link is there. */
  predicate IsDir(entries: seq<Entry>, p: Parts) {
    && Holding(entries, p).None?
    && (p == [] || exists e | e in entries :: !e.kind.Metadata? && p <= Real(e.path))
  }

  /** Standing at a place, with segments of text left to resolve. */
  datatype Spot = Spot(at: Parts, rest: Raw)

  datatype Move = To(spot: Spot) | Arrived | Outside | Broken

  /** One step of resolving a path in the unpacked tree: a link is followed from its own directory, `..` leads to
      the directory really above, and segments can only be looked up in directories. */
  function Step(entries: seq<Entry>, s: Spot): Move {
    var here := Holding(entries, s.at);
    if here.Some? && here.value.Link? then
      if Absolute(here.value.text) || s.at == [] then Outside else To(Spot(s.at[..|s.at| - 1], here.value.text + s.rest))
    else if s.rest == [] then
      if here.Some? || IsDir(entries, s.at) then Arrived else Broken
    else if !IsDir(entries, s.at) then Broken
    else if s.rest[0] == "" || s.rest[0] == "." then To(s.(rest := s.rest[1..]))
    else if s.rest[0] == ".." then
      if s.at == [] then Outside else To(Spot(s.at[..|s.at| - 1], s.rest[1..]))
    else To(Spot(s.at + [s.rest[0]], s.rest[1..]))
  }

  function StepsFrom(entries: seq<Entry>, s: Spot, n: nat): Option<Spot>
    decreases n
  {
    if n == 0 then Some(s)
    else
      var m := Step(entries, s);
      if m.To? then StepsFrom(entries, m.spot, n - 1) else None
  }

  /** Resolving from `s` ends at what lies at `p`. */
  ghost predicate Lands(entries: seq<Entry>, s: Spot, p: Parts) {
    exists n :: StepsFrom(entries, s, n) == Some(Spot(p, [])) && Step(entries, Spot(p, [])).Arrived?
  }

  /** Resolving from `s` leaves the root. */
  ghost predicate Leaves(entries: seq<Entry>, s: Spot) {
    exists n, t :: StepsFrom(entries, s, n) == Some(t) && Step(entries, t).Outside?
  }

  /** Where resolving a link starts: in its own directory, with its text. */
  function Start(name: Raw, link: Raw): Spot
    requires Real(name) != []
  {
    Spot(Real(name)[..|Real(name)| - 1], link)
  }

  lemma {:induction false} StepsAdd(entries: seq<Entry>, s: Spot, m: nat, n: nat)
    requires StepsFrom(entries, s, m).Some?
    ensures StepsFrom(entries, s, m + n) == StepsFrom(entries, StepsFrom(entries, s, m).value, n)
    decreases m
  {
    hide Step;
    if m > 0 { StepsAdd(entries, Step(entries, s).spot, m - 1, n); }
  }

  /** Resolving that breaks lands nowhere and does not leave the root. */
  lemma {:induction false} BrokenLandsNowhere(entries: seq<Entry>, s: Spot, m: nat, n: nat)
    requires StepsFrom(entries, s, m).Some? && Step(entries, StepsFrom(entries, s, m).value).Broken?
    ensures StepsFrom(entries, s, n).Some? ==> n <= m && (n < m ==> Step(entries, StepsFrom(entries, s, n).value).To?)
    decreases m
  {
    hide Step;
    if n > 0 && m > 0 { BrokenLandsNowhere(entries, Step(entries, s).spot, m - 1, n - 1); }
    if n > 0 && m == 0 { assert StepsFrom(entries, s, n).None?; }
  }

  // ---------- the component stack in the tree ----------

  /** The place a stack of components stands for: a leading `.` is the root itself. */
  function Place(stack: Parts): Parts { if stack != [] && stack[0] == "." then stack[1..] else stack }

  /** The stack once `i` segments of the text have been taken. */
  function StackAt(from: Parts, text: Raw, i: nat): Parts
    requires i <= |text|
  {
    Walk(from, Kept(text[..i])).GetOr([])
  }

  /** After each segment, resolving the text in the tree stands where the stack does. */
  predicate Tracks(entries: seq<Entry>, from: Parts, text: Raw) {
    forall i | 0 <= i <= |text| ::
      StepsFrom(entries, Spot(Place(from), text), i) == Some(Spot(Place(StackAt(from, text, i)), text[i..]))
  }

  /** Taking segment `i` is what the tree does: the stack is at a directory, and `..` does not climb over a
      leading `.`. */
  predicate StandsOnDirectory(entries: seq<Entry>, from: Parts, text: Raw, i: nat)
    requires i < |text|
  {
    IsDir(entries, Place(StackAt(from, text, i))) && !(text[i] == ".." && StackAt(from, text, i) == ["."])
  }

  /** One segment on the stack. */
  function Push(from: Parts, segment: string): Parts {
    if segment == "" || segment == "." then from
    else if segment == ".." then if from == [] then [] else from[..|from| - 1]
    else from + [segment]
  }

  lemma PeelSegment(from: Parts, text: Raw, i: nat)
    requires 0 < i <= |text|
    ensures text[0] == ".." && from == [] ==> Walk(from, Kept(text)).None?
    ensures (text[0] == ".." ==> from != []) ==> Walk(Push(from, text[0]), Kept(text[1..])) == Walk(from, Kept(text))
    ensures (text[0] == ".." ==> from != []) ==> Walk(Push(from, text[0]), Kept(text[1..][..i - 1])) == Walk(from, Kept(text[..i]))
  {
    hide Walk, Kept;
    assert text[..i] == [text[0]] + text[1..][..i - 1];
    KeptStep(text[0], text[1..][..i - 1]);
    KeptStep(text[0], text[1..]);
    assert text == [text[0]] + text[1..];
    WalkStep(from, text[0], Kept(text[1..][..i - 1]));
    WalkStep(from, text[0], Kept(text[1..]));
  }

  lemma EmptyWalk(from: Parts)
    ensures Walk(from, Kept([])) == Some(from)
  {
  }

  lemma WalkStep(from: Parts, head: string, rest: Parts)
    ensures Walk(from, (if head == "" || head == "." then [] else [head]) + rest)
            == if head == ".." && from == [] then None else Walk(Push(from, head), rest)
  {
    if head == "" || head == "." {
      assert [] + rest == rest;
    } else {
      assert ([head] + rest)[1..] == rest;
    }
  }

  /** A stack of the code: a `.` only in front. */
  predicate StackOk(stack: Parts) { forall i | 0 < i < |stack| :: stack[i] != "." }

  /** One step agrees with the stack exactly on a directory, unless `..` climbs over a leading `.`. */
  lemma StepAgrees(entries: seq<Entry>, from: Parts, text: Raw)
    requires text != [] && StackOk(from) && (text[0] == ".." ==> from != [])
    ensures Step(entries, Spot(Place(from), text)) == To(Spot(Place(Push(from, text[0])), text[1..]))
            <==> IsDir(entries, Place(from)) && !(text[0] == ".." && from == ["."])
  {
    hide IsDir;
    if IsDir(entries, Place(from)) {
      DirectoryHoldsNothing(entries, Place(from));
      if text[0] == ".." && from != ["."] {
        assert Place(from[..|from| - 1]) == Place(from)[..|Place(from)| - 1];
      }
    } else if Step(entries, Spot(Place(from), text)).To? {
      assert |Step(entries, Spot(Place(from), text)).spot.rest| >= |text|;
    }
  }

  lemma DirectoryHoldsNothing(entries: seq<Entry>, p: Parts)
    requires IsDir(entries, p)
    ensures Holding(entries, p).None?
  {
  }

  lemma {:induction false} TracksIff(entries: seq<Entry>, from: Parts, text: Raw)
    requires StackOk(from) && Walk(from, Kept(text)).Some?
    ensures Tracks(entries, from, text) <==> forall i | 0 <= i < |text| :: StandsOnDirectory(entries, from, text, i)
    decreases text
  {
    hide IsDir, Step, Walk, Kept, Place;
    TracksHere(entries, from, text);
    if text != [] {
      var next, rest := Push(from, text[0]), text[1..];
      PeelSegment(from, text, 1);
      StepAgrees(entries, from, text);
      TracksIff(entries, next, rest);
      TracksNext(entries, from, text);
    }
  }

  lemma TracksHere(entries: seq<Entry>, from: Parts, text: Raw)
    ensures StackAt(from, text, 0) == from && StepsFrom(entries, Spot(Place(from), text), 0) == Some(Spot(Place(from), text[0..]))
  {
    assert text[..0] == [] && text[0..] == text;
  }

  /** The stack after `i` segments of a text is the stack after `i - 1` segments of what follows the first. */
  lemma TracksNext(entries: seq<Entry>, from: Parts, text: Raw)
    requires text != [] && StackOk(from) && Walk(from, Kept(text)).Some?
    ensures var next, rest := Push(from, text[0]), text[1..];
            Tracks(entries, from, text) <==>
              Step(entries, Spot(Place(from), text)) == To(Spot(Place(next), rest)) && Tracks(entries, next, rest)
    ensures var next, rest := Push(from, text[0]), text[1..];
            (forall i | 0 <= i < |text| :: StandsOnDirectory(entries, from, text, i)) <==>
              StandsOnDirectory(entries, from, text, 0) && forall i | 0 <= i < |rest| :: StandsOnDirectory(entries, next, rest, i)
  {
    hide IsDir, Step, Walk, Kept, Place;
    var next, rest := Push(from, text[0]), text[1..];
    var s := Spot(Place(from), text);
    TracksHere(entries, from, text);
    forall i | 0 < i <= |text|
      ensures StackAt(from, text, i) == StackAt(next, rest, i - 1) && text[i..] == rest[i - 1..]
    {
      PeelSegment(from, text, i);
    }
    if Tracks(entries, from, text) {
      assert StepsFrom(entries, s, 1) == Some(Spot(Place(StackAt(from, text, 1)), text[1..]));
      TracksHere(entries, next, rest);
      forall i | 0 <= i <= |rest|
        ensures StepsFrom(entries, Spot(Place(next), rest), i) == Some(Spot(Place(StackAt(next, rest, i)), rest[i..]))
      {
        assert StepsFrom(entries, s, i + 1) == Some(Spot(Place(StackAt(from, text, i + 1)), text[i + 1..]));
      }
    }
    if Step(entries, s) == To(Spot(Place(next), rest)) && Tracks(entries, next, rest) {
      forall i | 0 <= i <= |text|
        ensures StepsFrom(entries, s, i) == Some(Spot(Place(StackAt(from, text, i)), text[i..]))
      {
        if i > 0 { assert StepsFrom(entries, s, i) == StepsFrom(entries, Spot(Place(next), rest), i - 1); }
      }
    }
    forall i | 0 < i < |text|
      ensures StandsOnDirectory(entries, from, text, i) <==> StandsOnDirectory(entries, next, rest, i - 1)
    {
    }
    if forall i | 0 <= i < |text| :: StandsOnDirectory(entries, from, text, i) {
      forall i | 0 <= i < |rest| ensures StandsOnDirectory(entries, next, rest, i) {
        assert StandsOnDirectory(entries, from, text, i + 1);
      }
    }
  }

  // ---------- one link ----------

  /** Every segment of a link's text is taken where the stack stands on a directory. */
  predicate OnDirectories(entries: seq<Entry>, name: Raw, link: Raw)
    requires Components(name) != []
  {
    forall i | 0 <= i < |link| :: StandsOnDirectory(entries, Parent(name), link, i)
  }

  lemma StartIsParent(name: Raw, link: Raw)
    requires Relative(name) && Real(name) != []
    ensures Components(name) != [] && StackOk(Parent(name)) && Start(name, link) == Spot(Place(Parent(name)), link)
    ensures !Dotted(name) ==> Parent(name) == Real(name)[..|Real(name)| - 1]
    ensures "." in Parent(name) <==> Dotted(name)
  {
    ComponentsAreReal(name);
    KeptMembers(name);
    hide Kept;
    var up := Real(name)[..|Real(name)| - 1];
    assert Parent(name) == (if Dotted(name) then ["."] else []) + up;
    forall i | 0 <= i < |up| ensures up[i] != "." {
      assert up[i] == Real(name)[i] && Real(name)[i] in Real(name);
    }
    hide *;
    UndottedStack(up);
    if Dotted(name) { DottedStackIs(up); }
  }

  lemma UndottedStack(up: Parts)
    requires forall i :: 0 <= i < |up| ==> up[i] != "."
    ensures StackOk(up) && Place(up) == up && "." !in up && [] + up == up
  {
  }

  lemma DottedStackIs(up: Parts)
    requires forall i :: 0 <= i < |up| ==> up[i] != "."
    ensures StackOk(["."] + up) && Place(["."] + up) == up && "." in ["."] + up
  {
    var s := ["."] + up;
    assert s[0] == "." && s[1..] == up;
  }

  /** The component stack of an accepted link text is where the tree leads, segment by segment, if and only if every
      segment is taken at a directory and none climbs over a leading `.`. */
  lemma StackIsExactIffOnDirectories(entries: seq<Entry>, name: Raw, link: Raw)
    requires Relative(name) && Real(name) != [] && !Absolute(link)
    ensures Components(name) != []
    ensures Normalized(name, link).Some? ==> (Tracks(entries, Parent(name), link) <==> OnDirectories(entries, name, link))
    ensures Normalized(name, link).Some? && OnDirectories(entries, name, link) ==>
              StepsFrom(entries, Start(name, link), |link|) == Some(Spot(Place(Normalized(name, link).value), []))
  {
    StartIsParent(name, link);
    if Normalized(name, link).Some? {
      hide IsDir, Step, Walk, Kept, Place, StepsFrom;
      TracksIff(entries, Parent(name), link);
      assert link[..|link|] == link && link[|link|..] == [];
    }
  }

  /** Where the stack stands on neither a directory nor a link, the link leads nowhere. */
  lemma NonDirectoryBreaks(entries: seq<Entry>, name: Raw, link: Raw, i: nat, p: Parts)
    requires Relative(name) && Real(name) != [] && Components(name) != [] && Normalized(name, link).Some? && i < |link|
    requires forall k | 0 <= k < i :: StandsOnDirectory(entries, Parent(name), link, k)
    requires var q := Place(StackAt(Parent(name), link, i));
             !IsDir(entries, q) && !(Holding(entries, q).Some? && Holding(entries, q).value.Link?)
    ensures !Lands(entries, Start(name, link), p) && !Leaves(entries, Start(name, link))
  {
    hide IsDir, Walk, Kept, Place, Holding;
    StartIsParent(name, link);
    var from, head := Parent(name), link[..i];
    assert link == head + link[i..];
    PrefixWalks(from, head, link[i..]);
    forall k | 0 <= k < |head| ensures StandsOnDirectory(entries, from, head, k) {
      assert head[..k] == link[..k];
      assert StandsOnDirectory(entries, from, link, k);
    }
    TracksIff(entries, from, head);
    assert head[..i] == head;
    StepsWithMore(entries, Spot(Place(from), head), link[i..], i);
    var s := Start(name, link);
    forall n { BrokenLandsNowhere(entries, s, i, n); }
  }

  lemma {:induction false} PrefixWalks(from: Parts, head: Raw, rest: Raw)
    requires Walk(from, Kept(head + rest)).Some?
    ensures Walk(from, Kept(head)).Some?
    decreases head
  {
    if head != [] {
      var text := head + rest;
      PeelSegment(from, text, 1);
      assert text[1..] == head[1..] + rest;
      PrefixWalks(Push(from, head[0]), head[1..], rest);
      assert head == [head[0]] + head[1..];
      KeptStep(head[0], head[1..]);
      WalkStep(from, head[0], Kept(head[1..]));
    }
  }

  /** More text behind changes nothing while the text in front is being taken. */
  lemma {:induction false} StepsWithMore(entries: seq<Entry>, s: Spot, more: Raw, n: nat)
    requires n <= |s.rest|
    requires forall k | 0 <= k <= n :: StepsFrom(entries, s, k).Some? && StepsFrom(entries, s, k).value.rest == s.rest[k..]
    ensures StepsFrom(entries, s, n).Some?
    ensures StepsFrom(entries, Spot(s.at, s.rest + more), n) == Some(Spot(StepsFrom(entries, s, n).value.at, s.rest[n..] + more))
    decreases n
  {
    hide IsDir, Holding;
    if n == 0 {
      assert s.rest[0..] == s.rest;
    } else {
      assert StepsFrom(entries, s, 1).Some? && StepsFrom(entries, s, 1).value.rest == s.rest[1..];
      var t := Step(entries, s).spot;
      assert (s.rest + more)[1..] == s.rest[1..] + more;
      assert Step(entries, Spot(s.at, s.rest + more)) == To(Spot(t.at, t.rest + more)) by { LongerStep(entries, s, more); }
      forall k | 0 <= k <= n - 1
        ensures StepsFrom(entries, t, k).Some? && StepsFrom(entries, t, k).value.rest == t.rest[k..]
      {
        assert StepsFrom(entries, t, k) == StepsFrom(entries, s, k + 1);
      }
      StepsWithMore(entries, t, more, n - 1);
      assert t.rest[n - 1..] == s.rest[n..];
    }
  }

  lemma LongerStep(entries: seq<Entry>, s: Spot, more: Raw)
    requires s.rest != [] && Step(entries, s).To?
    ensures var t := Step(entries, s).spot; Step(entries, Spot(s.at, s.rest + more)) == To(Spot(t.at, t.rest + more))
  {
    hide IsDir, Holding;
    var here := Holding(entries, s.at);
    if here.Some? && here.value.Link? {
      assert (here.value.text + s.rest) + more == here.value.text + (s.rest + more);
    } else {
      assert (s.rest + more)[1..] == s.rest[1..] + more && (s.rest + more)[0] == s.rest[0];
    }
  }

  // ---------- staying inside the root ----------

  /** Resolving leaves the root within its first `n` steps. */
  ghost predicate LeavesWithin(entries: seq<Entry>, s: Spot, n: nat) {
    exists i: nat, t :: i < n && StepsFrom(entries, s, i) == Some(t) && Step(entries, t).Outside?
  }

  /** Wherever the stack gets to, there is a directory. */
  predicate DirectoriesAlong(entries: seq<Entry>, from: Parts, link: Raw) {
    forall i | 0 <= i < |link| && Walk(from, Kept(link[..i])).Some? :: IsDir(entries, Place(StackAt(from, link, i)))
  }

  /** For an undotted name, with directories along the way, normalisation refuses exactly the texts that lead
      out of the root, and otherwise gives the place they lead to. */
  lemma UndottedIsExact(entries: seq<Entry>, name: Raw, link: Raw)
    requires Relative(name) && !Dotted(name) && !Absolute(link)
    requires Components(name) != [] && Real(name) != [] && DirectoriesAlong(entries, Parent(name), link)
    ensures Normalized(name, link).None? <==> LeavesWithin(entries, Start(name, link), |link|)
    ensures Normalized(name, link).Some? ==>
              StepsFrom(entries, Start(name, link), |link|) == Some(Spot(Normalized(name, link).value, []))
  {
    hide IsDir, Step, Walk, Kept, Place, StepsFrom;
    StartIsParent(name, link);
    WithoutDots(entries, Parent(name), link);
  }

  lemma WithoutDotsStep(entries: seq<Entry>, from: Parts, link: Raw)
    requires "." !in from && link != [] && DirectoriesAlong(entries, from, link)
    ensures link[0] == ".." && from == [] ==> Walk(from, Kept(link)).None? && Step(entries, Spot(from, link)).Outside?
    ensures !(link[0] == ".." && from == []) ==>
              var next, rest := Push(from, link[0]), link[1..];
              && "." !in next && Walk(next, Kept(rest)) == Walk(from, Kept(link)) && DirectoriesAlong(entries, next, rest)
              && Step(entries, Spot(from, link)) == To(Spot(next, rest))
  {
    hide IsDir, Walk, Kept;
    TracksHere(entries, from, link);
    EmptyWalk(from);
    PeelSegment(from, link, 1);
    assert IsDir(entries, Place(StackAt(from, link, 0)));
    DirectoryHoldsNothing(entries, from);
    if !(link[0] == ".." && from == []) {
      StepAgrees(entries, from, link);
      var next, rest := Push(from, link[0]), link[1..];
      forall i | 0 <= i < |rest| && Walk(next, Kept(rest[..i])).Some? ensures IsDir(entries, Place(StackAt(next, rest, i))) {
        PeelSegment(from, link, i + 1);
        assert IsDir(entries, Place(StackAt(from, link, i + 1)));
      }
    }
  }

  lemma {:induction false} WithoutDots(entries: seq<Entry>, from: Parts, link: Raw)
    requires "." !in from && DirectoriesAlong(entries, from, link)
    ensures Walk(from, Kept(link)).None? <==> LeavesWithin(entries, Spot(Place(from), link), |link|)
    ensures Walk(from, Kept(link)).Some? ==>
              StepsFrom(entries, Spot(Place(from), link), |link|) == Some(Spot(Walk(from, Kept(link)).value, []))
    decreases link
  {
    hide IsDir, Holding, Walk, Kept;
    var s := Spot(from, link);
    if link == [] {
      EmptyWalk(from);
    } else {
      WithoutDotsStep(entries, from, link);
      if !(link[0] == ".." && from == []) {
        var next, rest := Push(from, link[0]), link[1..];
        WithoutDots(entries, next, rest);
        var t := Spot(next, rest);
        assert Step(entries, s) == To(t);
        if LeavesWithin(entries, t, |rest|) {
          var i: nat, u :| i < |rest| && StepsFrom(entries, t, i) == Some(u) && Step(entries, u).Outside?;
          assert StepsFrom(entries, s, i + 1) == Some(u);
        }
        if LeavesWithin(entries, s, |link|) {
          var i: nat, u :| i < |link| && StepsFrom(entries, s, i) == Some(u) && Step(entries, u).Outside?;
          assert i > 0 && StepsFrom(entries, t, i - 1) == Some(u);
        }
      } else {
        assert StepsFrom(entries, s, 0) == Some(s);
      }
    }
  }

  function Ups(n: nat): Raw { seq(n, i => "..") }

  lemma {:induction false} UpsAreKept(n: nat)
    ensures Kept(Ups(n)) == Ups(n)
  {
    if n > 0 {
      UpsAreKept(n - 1);
      assert Ups(n)[1..] == Ups(n - 1);
    }
  }

  lemma {:induction false} UpsClimb(from: Parts, n: nat)
    ensures Walk(from, Ups(n)) == if n <= |from| then Some(from[..|from| - n]) else None
  {
    if n == 0 {
      assert from[..|from|] == from;
    } else if from != [] {
      var up := from[..|from| - 1];
      UpsClimb(up, n - 1);
      assert Ups(n)[1..] == Ups(n - 1);
      if n <= |from| { assert up[..|up| - (n - 1)] == from[..|from| - n]; }
    }
  }

  lemma {:induction false} ClimbOut(entries: seq<Entry>, p: Parts, n: nat)
    requires n > |p| && forall k | 0 <= k <= |p| :: IsDir(entries, p[..k])
    ensures StepsFrom(entries, Spot(p, Ups(n)), |p|) == Some(Spot([], Ups(n - |p|)))
    decreases p
  {
    hide IsDir;
    assert p[..|p|] == p;
    DirectoryHoldsNothing(entries, p);
    if p != [] {
      var up := p[..|p| - 1];
      forall k | 0 <= k <= |up| ensures IsDir(entries, up[..k]) {
        assert up[..k] == p[..k];
      }
      assert Ups(n)[1..] == Ups(n - 1);
      assert Step(entries, Spot(p, Ups(n))) == To(Spot(up, Ups(n - 1)));
      ClimbOut(entries, up, n - 1);
    }
  }

  lemma AloneIsBelowDirectories(e: Entry, k: nat)
    requires k < |Real(e.path)| && !e.kind.Metadata?
    ensures IsDir([e], Real(e.path)[..k])
  {
    hide Kept;
    var p := Real(e.path)[..k];
    assert e in [e] && p <= Real(e.path);
    assert [e][..0] == [] && Holding([], p).None?;
  }

  /** A leading `.` counts as a directory level of its own, so a link one level too high is taken for one that stays
      inside. With directories along the way, the texts accepted for a name all stay below the root if and only if the
      name does not start with `.`. */
  lemma StaysInsideIffUndotted(name: Raw)
    requires Relative(name) && Real(name) != []
    ensures Components(name) != []
    ensures (forall entries, link |
               Normalized(name, link).Some? && DirectoriesAlong(entries, Parent(name), link) ::
               !LeavesWithin(entries, Start(name, link), |link|))
            <==> !Dotted(name)
  {
    StartIsParent(name, []);
    if Dotted(name) {
      DottedLeaves(name);
    } else {
      forall entries, link | Normalized(name, link).Some? && DirectoriesAlong(entries, Parent(name), link)
        ensures !LeavesWithin(entries, Start(name, link), |link|)
      {
        UndottedIsExact(entries, name, link);
      }
    }
  }

  lemma DottedLeaves(name: Raw)
    requires Relative(name) && Real(name) != [] && Dotted(name) && Components(name) != []
    ensures var link := Ups(|Real(name)|);
            var entries := [Entry(name, false, Link(link))];
            && Normalized(name, link).Some? && DirectoriesAlong(entries, Parent(name), link)
            && LeavesWithin(entries, Start(name, link), |link|)
  {
    hide *;
    DottedStays(name);
    DottedEscapes(name);
  }

  /** The stack of a dotted name has one level more than there are directories. */
  lemma DottedStays(name: Raw)
    requires Relative(name) && Real(name) != [] && Dotted(name) && Components(name) != []
    ensures var link := Ups(|Real(name)|);
            Normalized(name, link).Some? && DirectoriesAlong([Entry(name, false, Link(link))], Parent(name), link)
  {
    hide IsDir, Kept, Walk, Components;
    var n := |Real(name)|;
    var link := Ups(n);
    DottedParent(name);
    UpsAreKept(n);
    UpsClimb(Parent(name), n);
    forall i | 0 <= i < n ensures IsDir([Entry(name, false, Link(link))], Place(StackAt(Parent(name), link, i))) {
      DottedStack(name, i);
    }
  }

  lemma DottedParent(name: Raw)
    requires Relative(name) && Real(name) != [] && Dotted(name)
    ensures Components(name) != [] && Parent(name) == ["."] + Real(name)[..|Real(name)| - 1]
  {
    ComponentsAreReal(name);
  }

  lemma DottedStack(name: Raw, i: nat)
    requires Relative(name) && Real(name) != [] && Dotted(name) && i < |Real(name)| && Components(name) != []
    ensures var link := Ups(|Real(name)|);
            IsDir([Entry(name, false, Link(link))], Place(StackAt(Parent(name), link, i)))
  {
    hide IsDir, Kept, Walk, Components;
    var n := |Real(name)|;
    var link, from := Ups(n), Parent(name);
    DottedParent(name);
    assert link[..i] == Ups(i);
    UpsAreKept(i);
    UpsClimb(from, i);
    assert Place(from[..|from| - i]) == Real(name)[..n - 1 - i];
    AloneIsBelowDirectories(Entry(name, false, Link(link)), n - 1 - i);
  }

  lemma DottedEscapes(name: Raw)
    requires Real(name) != []
    ensures var link := Ups(|Real(name)|); LeavesWithin([Entry(name, false, Link(link))], Start(name, link), |link|)
  {
    hide IsDir, Kept, Step, StepsFrom, Holding;
    var n := |Real(name)|;
    var link := Ups(n);
    var e := Entry(name, false, Link(link));
    var p := Real(name)[..n - 1];
    forall k | 0 <= k <= |p| ensures IsDir([e], p[..k]) {
      assert p[..k] == Real(name)[..k];
      AloneIsBelowDirectories(e, k);
    }
    ClimbOut([e], p, n);
    assert p[..0] == [];
    OutOfRoot([e], Ups(1));
  }

  lemma OutOfRoot(entries: seq<Entry>, rest: Raw)
    requires IsDir(entries, []) && rest != [] && rest[0] == ".."
    ensures Step(entries, Spot([], rest)).Outside?
  {
  }
}
