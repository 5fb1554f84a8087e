/** Whole archives in the tree they unpack to: which links lead where the archive check says, and what is there. */
module LinkArchives {
  import opened Effects
  import opened Links
  import opened LinkResolution

  // ---------- whole archives ----------

  predicate HoldsContent(e: Entry) { e.kind.File? || e.kind.Link? }

  /** The archive unpacks to a tree: files and links lie below the root, and nothing else lies at or below one. */
  predicate Unpacks(entries: seq<Entry>) {
    forall i, j | 0 <= i < |entries| && 0 <= j < |entries| && HoldsContent(entries[i]) && !entries[j].kind.Metadata? ::
      Real(entries[i].path) != [] && (i != j ==> !(Real(entries[i].path) <= Real(entries[j].path)))
  }

  /** All names are tidy and dotted alike, and nothing lies at or below a regular file. */
  predicate Plain(entries: seq<Entry>) {
    forall i, j | 0 <= i < |entries| && 0 <= j < |entries| ::
      && IsTidy(entries[i].path) && Real(entries[i].path) != [] && Dotted(entries[i].path) == Dotted(entries[j].path)
      && (i != j && entries[i].kind.File? ==> !(Real(entries[i].path) <= Real(entries[j].path)))
  }

  /** The check for entries below links is what makes an accepted archive with such names unpack. */
  lemma AcceptedUnpacks(entries: seq<Entry>, version: nat)
    requires Acceptable(entries, version) && Plain(entries)
    ensures Unpacks(entries)
  {
    hide EntriesOk, Kept, EntryOk, TargetOk, Detects;
    forall i, j | 0 <= i < |entries| && 0 <= j < |entries| && i != j && entries[i].kind.Link?
      ensures !(Real(entries[i].path) <= Real(entries[j].path))
    {
      AcceptedNames(entries, version, i, j);
      LinksListed(entries, i);
      NothingBelowLinks(entries, version, entries[i].path, entries[j]);
    }
  }

  lemma AcceptedNames(entries: seq<Entry>, version: nat, i: nat, j: nat)
    requires Acceptable(entries, version) && Plain(entries) && i < |entries| && j < |entries| && i != j
    ensures Real(entries[i].path) != Real(entries[j].path)
  {
    hide Kept;
    assert EntryOk(entries[i]) && EntryOk(entries[j]);
    ComponentsAreReal(entries[i].path);
    ComponentsAreReal(entries[j].path);
  }

  lemma {:induction false} LinksListed(entries: seq<Entry>, i: nat)
    requires EntriesOk(entries) && i < |entries| && entries[i].kind.Link?
    ensures entries[i].path in LinksOf(entries)
    ensures LinksOf(entries)[entries[i].path] == Text(Normalized(entries[i].path, entries[i].kind.text).value)
  {
    hide Normalized, Components;
    var rest, last := entries[..|entries| - 1], entries[|entries| - 1];
    EntriesTake(entries, |entries| - 1);
    if i < |rest| {
      LinksListed(rest, i);
      assert Components(entries[i].path) != Components(last.path);
    }
  }

  lemma EntriesTake(entries: seq<Entry>, n: nat)
    requires EntriesOk(entries) && n <= |entries|
    ensures EntriesOk(entries[..n])
  {
    hide EntryOk, Components;
    forall i | 0 <= i < n ensures EntryOk(entries[..n][i]) {
      assert entries[..n][i] == entries[i];
    }
  }

  lemma {:induction false} HoldingIsEntry(entries: seq<Entry>, p: Parts)
    ensures Holding(entries, p).Some? ==> exists e :: IsHeld(entries, e, p) && Holding(entries, p) == Some(e.kind)
  {
    if entries != [] {
      HoldingIsEntry(entries[..|entries| - 1], p);
      assert entries[|entries| - 1] in entries;
    }
  }

  predicate IsHeld(entries: seq<Entry>, e: Entry, p: Parts) { e in entries && Real(e.path) == p && HoldsContent(e) }

  lemma {:induction false} HoldingIsSome(entries: seq<Entry>, e: Entry)
    requires e in entries && HoldsContent(e)
    ensures Holding(entries, Real(e.path)).Some?
  {
    if entries[|entries| - 1] != e {
      assert entries == entries[..|entries| - 1] + [entries[|entries| - 1]];
      HoldingIsSome(entries[..|entries| - 1], e);
    }
  }

  /** In an archive that unpacks each file and link is held at its place. */
  lemma EntryIsHeld(entries: seq<Entry>, e: Entry)
    requires Unpacks(entries) && e in entries && HoldsContent(e)
    ensures Holding(entries, Real(e.path)) == Some(e.kind)
  {
    hide Kept, Holding;
    HoldingIsSome(entries, e);
    HoldingIsEntry(entries, Real(e.path));
    var d :| IsHeld(entries, d, Real(e.path)) && Holding(entries, Real(e.path)) == Some(d.kind);
    var i :| 0 <= i < |entries| && entries[i] == e;
    var j :| 0 <= j < |entries| && entries[j] == d;
  }

  lemma ContentIsAlone(entries: seq<Entry>, d: Entry, e: Entry)
    requires Unpacks(entries) && d in entries && e in entries && d != e && HoldsContent(d) && !e.kind.Metadata?
    ensures !(Real(d.path) <= Real(e.path))
  {
    hide Kept;
    var i :| 0 <= i < |entries| && entries[i] == d;
    var j :| 0 <= j < |entries| && entries[j] == e;
  }

  /** What lies above an entry is a directory. */
  lemma AboveIsDirectory(entries: seq<Entry>, e: Entry, p: Parts)
    requires Unpacks(entries) && e in entries && !e.kind.Metadata? && p <= Real(e.path)
    requires |p| < |Real(e.path)| || !HoldsContent(e)
    ensures IsDir(entries, p)
  {
    hide Kept, Holding;
    HoldingIsEntry(entries, p);
    if Holding(entries, p).Some? {
      var d :| IsHeld(entries, d, p) && Holding(entries, p) == Some(d.kind);
      ContentIsAlone(entries, d, e);
    }
  }

  // ---------- what the recorded targets mean in the tree ----------

  /** The stacks of normalisation are tidy paths. */
  predicate TidyStack(stack: Parts) { "" !in stack && StackOk(stack) }

  lemma {:induction false} WalkIsTidy(from: Parts, link: Parts)
    requires TidyStack(from) && "" !in link && "." !in link && Walk(from, link).Some?
    ensures TidyStack(Walk(from, link).value)
    decreases link
  {
    if link != [] {
      var next := if link[0] == ".." then from[..|from| - 1] else from + [link[0]];
      assert link == [link[0]] + link[1..];
      WalkIsTidy(next, link[1..]);
    }
  }

  lemma NormalizedIsTidy(name: Raw, link: Raw)
    requires Relative(name) && Real(name) != [] && Components(name) != [] && Normalized(name, link).Some?
    ensures TidyStack(Normalized(name, link).value)
    ensures Components(Text(Normalized(name, link).value)) == Normalized(name, link).value
  {
    var t := Normalized(name, link).value;
    StartIsParent(name, link);
    KeptMembers(link);
    KeptMembers(name);
    ParentIsTidy(name);
    WalkIsTidy(Parent(name), Kept(link));
    TidyIsComponents(t);
  }

  lemma ParentIsTidy(name: Raw)
    requires Relative(name) && Components(name) != []
    ensures "" !in Parent(name)
  {
    hide Kept;
    KeptMembers(name);
    ComponentsAreReal(name);
    forall i | 0 <= i < |Parent(name)| ensures Parent(name)[i] != "" {
      assert Parent(name)[i] == Components(name)[i];
      if !(Dotted(name) && i == 0) { assert Components(name)[i] in Real(name); }
    }
  }

  lemma TidyIsComponents(stack: Parts)
    requires TidyStack(stack)
    ensures Components(Text(stack)) == stack
  {
    if stack == [] {
      KeptStep("", []);
      EmptyKept();
      assert [""] == [""] + [];
    } else if stack[0] == "." {
      forall i | 0 <= i < |stack[1..]| ensures stack[1..][i] != "." { }
      CleanIsKept(stack[1..]);
      assert stack == ["."] + stack[1..];
    } else {
      CleanIsKept(stack);
    }
  }

  /** The place a recorded target names. */
  function TargetPlace(x: Raw): Parts { Place(Components(x)) }

  /** Every link's text is taken on directories. */
  predicate AllOnDirectories(entries: seq<Entry>) {
    forall e | e in entries && e.kind.Link? :: Components(e.path) != [] && OnDirectories(entries, e.path, e.kind.text)
  }

  /** One hop: from the place of a link the tree leads to the place of its recorded target. */
  lemma HopAgrees(entries: seq<Entry>, i: nat)
    requires EntriesOk(entries) && Unpacks(entries) && AllOnDirectories(entries) && i < |entries| && entries[i].kind.Link?
    ensures var l := entries[i].path;
            && Real(l) != [] && l in LinksOf(entries) && Step(entries, Spot(Real(l), [])) == To(Start(l, entries[i].kind.text))
            && exists n :: StepsFrom(entries, Start(l, entries[i].kind.text), n) == Some(Spot(TargetPlace(LinksOf(entries)[l]), []))
  {
    var e := entries[i];
    LinkFacts(entries, i);
    hide *;
    LinksListed(entries, i);
    LinkStep(entries, e);
    LinkHop(entries, e);
  }

  lemma LinkFacts(entries: seq<Entry>, i: nat)
    requires EntriesOk(entries) && Unpacks(entries) && AllOnDirectories(entries) && i < |entries| && entries[i].kind.Link?
    ensures var e := entries[i];
            EntryOk(e) && Real(e.path) != [] && Components(e.path) != [] && OnDirectories(entries, e.path, e.kind.text)
  {
    hide Kept, OnDirectories, Normalized;
    assert HoldsContent(entries[i]);
  }

  lemma LinkStep(entries: seq<Entry>, e: Entry)
    requires Unpacks(entries) && e in entries && e.kind.Link? && EntryOk(e) && Real(e.path) != []
    ensures Step(entries, Spot(Real(e.path), [])) == To(Start(e.path, e.kind.text))
  {
    hide Kept, Holding, Walk;
    EntryIsHeld(entries, e);
    assert e.kind.text + [] == e.kind.text;
  }

  lemma LinkHop(entries: seq<Entry>, e: Entry)
    requires e.kind.Link? && EntryOk(e) && Real(e.path) != [] && OnDirectories(entries, e.path, e.kind.text)
    ensures StepsFrom(entries, Start(e.path, e.kind.text), |e.kind.text|)
            == Some(Spot(TargetPlace(Text(Normalized(e.path, e.kind.text).value)), []))
  {
    hide Kept, Walk, Holding, Components, OnDirectories, Step, StepsFrom;
    StackIsExactIffOnDirectories(entries, e.path, e.kind.text);
    NormalizedIsTidy(e.path, e.kind.text);
  }

  lemma {:induction false} LinkNamed(entries: seq<Entry>, l: Raw)
    requires EntriesOk(entries) && l in LinksOf(entries)
    ensures exists i :: 0 <= i < |entries| && entries[i].kind.Link? && entries[i].path == l
  {
    hide Normalized, Components, EntryOk;
    var rest, last := entries[..|entries| - 1], entries[|entries| - 1];
    EntriesTake(entries, |entries| - 1);
    if l in LinksOf(rest) {
      LinkNamed(rest, l);
      var i :| 0 <= i < |rest| && rest[i].kind.Link? && rest[i].path == l;
      assert entries[i] == rest[i];
    } else {
      assert EntryOk(last) && last.path == l;
    }
  }

  lemma NameIsPlace(l: Raw)
    requires Relative(l)
    ensures TargetPlace(l) == Real(l)
  {
    hide Kept;
    ComponentsAreReal(l);
    KeptMembers(l);
    if !Dotted(l) && Real(l) != [] { assert Real(l)[0] in Real(l); }
  }

  /** The recorded targets lead through the tree as they lead through the map. */
  lemma {:induction false} MapAgrees(entries: seq<Entry>, x: Raw, n: nat)
    requires EntriesOk(entries) && Unpacks(entries) && AllOnDirectories(entries) && EndsIn(LinksOf(entries), x, n)
    ensures exists k :: StepsFrom(entries, Spot(TargetPlace(x), []), k)
                        == Some(Spot(TargetPlace(After(LinksOf(entries), x, n)), []))
    decreases n
  {
    hide EntriesOk, Unpacks, AllOnDirectories, LinksOf, Step, TargetPlace;
    var s := Spot(TargetPlace(x), []);
    if n == 0 {
      assert StepsFrom(entries, s, 0) == Some(s);
    } else {
      var links := LinksOf(entries);
      LinkNamed(entries, x);
      var i :| 0 <= i < |entries| && entries[i].kind.Link? && entries[i].path == x;
      HopAgrees(entries, i);
      assert Relative(x) by { EntryIsRelative(entries, i); }
      NameIsPlace(x);
      var start := Start(x, entries[i].kind.text);
      var h: nat :| StepsFrom(entries, start, h) == Some(Spot(TargetPlace(links[x]), []));
      assert StepsFrom(entries, s, h + 1) == StepsFrom(entries, start, h);
      MapAgrees(entries, links[x], n - 1);
      var k: nat :| StepsFrom(entries, Spot(TargetPlace(links[x]), []), k)
               == Some(Spot(TargetPlace(After(links, links[x], n - 1)), []));
      StepsAdd(entries, s, h + 1, k);
    }
  }

  lemma EntryIsRelative(entries: seq<Entry>, i: nat)
    requires EntriesOk(entries) && i < |entries|
    ensures Relative(entries[i].path)
  {
    assert EntryOk(entries[i]);
  }

  /** The tree's directory without links of equally dotted names. */
  ghost predicate HoldsNoLinks(entries: seq<Entry>, t: Raw) {
    && IsDir(entries, TargetPlace(t))
    && forall m :: m in entries && m.kind.Link? && Dotted(m.path) == Dotted(t) ==> !(TargetPlace(t) <= Real(m.path))
  }

  /** A regular file whose name is not written tidily. */
  ghost predicate HoldsUntidyFile(entries: seq<Entry>, p: Parts) {
    exists e :: e in entries && e.kind.File? && Real(e.path) == p && !IsTidy(e.path) && Holding(entries, p) == Some(e.kind)
  }

  lemma PlacesNest(a: Parts, b: Parts)
    requires a <= b
    ensures Place(a) <= Place(b)
  {
    if a != [] { assert a[0] == b[0]; }
  }

  lemma DirectoryTarget(entries: seq<Entry>, version: nat, t: Raw, c: Parts)
    requires EntriesOk(entries) && Unpacks(entries) && LinkFreeDirectory(FilesOf(entries, version), LinksOf(entries), t)
    requires t !in FilesOf(entries, version) && t == Text(c) && c != [] && TidyStack(c)
    ensures HoldsNoLinks(entries, t) || HoldsUntidyFile(entries, TargetPlace(t))
  {
    hide Kept, Unpacks, FilesOf, LinksOf, IsDir, EntryOk, Holding;
    var files, links := FilesOf(entries, version), LinksOf(entries);
    TidyIsComponents(c);
    var f :| f in files && Components(t) <= Components(f);
    assert f !in links;
    LinksAreEntries(entries, version);
    var e :| Supplies(entries, e, f);
    var j :| 0 <= j < |entries| && entries[j] == e;
    EntryIsRelative(entries, j);
    NameIsPlace(f);
    PlacesNest(Components(t), Components(f));
    if TargetPlace(t) == Real(f) {
      EntryIsHeld(entries, e);
      SamePlaceIsUntidy(c, f);
      assert HoldsUntidyFile(entries, TargetPlace(t));
    } else {
      AboveIsDirectory(entries, e, TargetPlace(t));
      forall m | m in entries && m.kind.Link? && Dotted(m.path) == Dotted(t)
        ensures !(TargetPlace(t) <= Real(m.path))
      {
        var i :| 0 <= i < |entries| && entries[i] == m;
        LinksListed(entries, i);
        EntryIsRelative(entries, i);
        NestedAlike(c, m.path);
      }
    }
  }

  lemma NestedAlike(c: Parts, l: Raw)
    requires TidyStack(c) && c != [] && Relative(l) && Dotted(c) == Dotted(l)
    ensures Place(c) <= Real(l) <==> c <= Components(l)
  {
    hide Kept;
    ComponentsAreReal(l);
    KeptMembers(l);
    assert c == (if Dotted(c) then ["."] else []) + Place(c);
    if c <= Components(l) { PlacesNest(c, Components(l)); NameIsPlace(l); }
  }

  lemma SamePlaceIsUntidy(c: Parts, f: Raw)
    requires TidyStack(c) && c != [] && Relative(f) && c <= Components(f) && Place(c) == Real(f) && f != c
    ensures !IsTidy(f)
  {
    hide Kept;
    ComponentsAreReal(f);
    NameIsPlace(f);
    assert c[0] == Components(f)[0];
    assert c == Components(f);
  }

  lemma RecordedIsTidy(entries: seq<Entry>, l: Raw)
    requires EntriesOk(entries) && Unpacks(entries) && l in LinksOf(entries)
    ensures exists c :: TidyStack(c) && LinksOf(entries)[l] == Text(c)
  {
    hide Kept, Walk, LinksOf, Components, Normalized, TidyStack, EntryOk, Relative;
    LinkNamed(entries, l);
    var i :| 0 <= i < |entries| && entries[i].kind.Link? && entries[i].path == l;
    LinksListed(entries, i);
    EntryIsRelative(entries, i);
    assert HoldsContent(entries[i]);
    LinkIsNormalized(entries, i);
    NormalizedIsTidy(l, entries[i].kind.text);
  }

  lemma LinkIsNormalized(entries: seq<Entry>, i: nat)
    requires EntriesOk(entries) && i < |entries| && entries[i].kind.Link?
    ensures Components(entries[i].path) != [] && Normalized(entries[i].path, entries[i].kind.text).Some?
  {
    assert EntryOk(entries[i]);
  }

  lemma {:induction false} FinalIsTidy(entries: seq<Entry>, x: Raw, n: nat)
    requires EntriesOk(entries) && Unpacks(entries) && EndsIn(LinksOf(entries), x, n)
    requires exists c :: TidyStack(c) && x == Text(c)
    ensures exists c :: TidyStack(c) && After(LinksOf(entries), x, n) == Text(c)
    decreases n
  {
    hide EntriesOk, Unpacks, LinksOf, TidyStack;
    if n > 0 {
      RecordedIsTidy(entries, x);
      FinalIsTidy(entries, LinksOf(entries)[x], n - 1);
    }
  }

  /** What the tree holds where following the recorded targets ends. */
  ghost predicate EndsWell(entries: seq<Entry>, version: nat, t: Raw) {
    && (t in FilesOf(entries, version) ==> exists e :: Supplies(entries, e, t) && Holding(entries, TargetPlace(t)) == Some(e.kind))
    && (t !in FilesOf(entries, version) ==>
          version == 2 && (HoldsNoLinks(entries, t) || HoldsUntidyFile(entries, TargetPlace(t))))
  }

  lemma TargetIsHeld(entries: seq<Entry>, version: nat, l: Raw)
    requires Acceptable(entries, version) && Unpacks(entries) && l in LinksOf(entries)
    ensures Terminates(LinksOf(entries), LinksOf(entries)[l])
    ensures EndsWell(entries, version, Final(LinksOf(entries), LinksOf(entries)[l]))
  {
    hide Kept, EntriesOk, FilesOf, LinksOf, IsDir, Holding, Detects, TidyStack, HoldsNoLinks, HoldsUntidyFile, Components, Place, Unpacks;
    var files, links := FilesOf(entries, version), LinksOf(entries);
    TargetsEndAtContent(entries, version, l);
    var t := Final(links, links[l]);
    if t in files {
      var e :| Supplies(entries, e, t) && files[t].hash == Sha(e.kind.content);
      EntryIsHeld(entries, e);
      var j :| 0 <= j < |entries| && entries[j] == e;
      EntryIsRelative(entries, j);
      NameIsPlace(t);
    } else {
      RecordedIsTidy(entries, l);
      var n: nat :| EndsIn(links, links[l], n) && t == After(links, links[l], n);
      FinalIsTidy(entries, links[l], n);
      var c :| TidyStack(c) && t == Text(c);
      TidyIsComponents(c);
      assert c != [] by { assert l in links && !(Components(t) <= Components(l)); }
      DirectoryTarget(entries, version, t, c);
    }
  }

  lemma EndsWellArrives(entries: seq<Entry>, version: nat, t: Raw)
    requires EndsWell(entries, version, t)
    ensures Step(entries, Spot(TargetPlace(t), [])).Arrived?
  {
    hide FilesOf, Holding, TargetPlace, IsTidy;
    if HoldsNoLinks(entries, t) { DirectoryHoldsNothing(entries, TargetPlace(t)); }
  }

  // ---------- which segments matter ----------

  predicate IsNoise(segment: string) { segment == "" || segment == "." }

  /** A segment before which a directory is needed that the check does not look at: `..`, or a trailing separator. */
  predicate Settles(text: Raw, k: nat)
    requires k < |text|
  {
    text[k] == ".." || forall m | k <= m < |text| :: IsNoise(text[m])
  }

  lemma {:induction false} WalkAppend(from: Parts, a: Parts, b: Parts)
    ensures Walk(from, a + b) == if Walk(from, a).Some? then Walk(Walk(from, a).value, b) else None
    decreases a
  {
    if a == [] {
      assert a + b == b;
    } else {
      assert (a + b)[1..] == a[1..] + b;
      if a[0] == ".." {
        if from != [] { WalkAppend(from[..|from| - 1], a[1..], b); }
      } else {
        WalkAppend(from + [a[0]], a[1..], b);
      }
    }
  }

  lemma {:induction false} KeptAppend(a: Raw, b: Raw)
    ensures Kept(a + b) == Kept(a) + Kept(b)
  {
    if a == [] {
      assert a + b == b;
    } else {
      assert (a + b)[1..] == a[1..] + b;
      KeptAppend(a[1..], b);
    }
  }

  lemma StackNext(from: Parts, text: Raw, k: nat)
    requires k < |text| && Walk(from, Kept(text)).Some?
    ensures StackAt(from, text, k + 1) == Push(StackAt(from, text, k), text[k])
    ensures text[k] == ".." ==> StackAt(from, text, k) != []
  {
    hide Walk, Kept;
    var here := StackAt(from, text, k);
    assert text == text[..k] + text[k..] && text == text[..k + 1] + text[k + 1..] && text[..k + 1] == text[..k] + [text[k]];
    PrefixWalks(from, text[..k], text[k..]);
    PrefixWalks(from, text[..k + 1], text[k + 1..]);
    KeptAppend(text[..k], [text[k]]);
    WalkAppend(from, Kept(text[..k]), Kept([text[k]]));
    assert [text[k]][1..] == [];
    PeelSegment(here, [text[k]], 1);
    EmptyWalk(Push(here, text[k]));
  }

  /** What is on the stack is popped later or stays. */
  lemma {:induction false} PoppedOrKept(from: Parts, text: Raw, k: nat, top: Parts)
    requires k <= |text| && Walk(from, Kept(text)).Some? && top <= StackAt(from, text, k)
    ensures top <= StackAt(from, text, |text|) || exists j :: k <= j < |text| && text[j] == ".." && StackAt(from, text, j) == top
    decreases |text| - k
  {
    hide Walk, Kept;
    if k < |text| && !(text[k] == ".." && StackAt(from, text, k) == top) {
      StackNext(from, text, k);
      PoppedOrKept(from, text, k + 1, top);
    }
  }

  predicate SettledOnDirectories(entries: seq<Entry>, from: Parts, text: Raw) {
    forall k | 0 <= k < |text| && Settles(text, k) :: StandsOnDirectory(entries, from, text, k)
  }

  /** Some content lies at or below the recorded target of every link of an accepted archive. */
  lemma TargetIsAboveContent(entries: seq<Entry>, version: nat, i: nat)
    requires Acceptable(entries, version) && Unpacks(entries) && i < |entries| && entries[i].kind.Link?
    ensures Components(entries[i].path) != [] && Normalized(entries[i].path, entries[i].kind.text).Some?
    ensures exists e :: e in entries && HoldsContent(e) && Relative(e.path)
                        && Normalized(entries[i].path, entries[i].kind.text).value <= Components(e.path)
  {
    hide Kept, Components, Walk, EntryOk, Normalized, EntriesOk, LinksOf, FilesOf, Detects, Unpacks, Terminates;
    var l, files, links := entries[i].path, FilesOf(entries, version), LinksOf(entries);
    LinksListed(entries, i);
    LinkIsNormalized(entries, i);
    LinksAreEntries(entries, version);
    RecordedIsTidyAt(entries, i);
    var c, t := Normalized(l, entries[i].kind.text).value, links[l];
    var f;
    if t in links {
      f := t;
    } else {
      assert Leads(links, t, 0, t);
      FinalIs(links, t, 0, t);
      if t in files { f := t; } else { f :| f in files && c <= Components(f); }
    }
    ContentNamed(entries, version, f);
  }

  lemma RecordedIsTidyAt(entries: seq<Entry>, i: nat)
    requires EntriesOk(entries) && Unpacks(entries) && i < |entries| && entries[i].kind.Link?
    ensures var c := Normalized(entries[i].path, entries[i].kind.text); c.Some? && Components(Text(c.value)) == c.value
  {
    hide Kept, Walk, Components, Normalized, TidyStack, Relative;
    EntryIsRelative(entries, i);
    assert HoldsContent(entries[i]);
    LinkIsNormalized(entries, i);
    NormalizedIsTidy(entries[i].path, entries[i].kind.text);
  }

  lemma ContentNamed(entries: seq<Entry>, version: nat, f: Raw)
    requires EntriesOk(entries) && f in FilesOf(entries, version)
    ensures exists e :: e in entries && HoldsContent(e) && Relative(e.path) && e.path == f
  {
    hide Kept, Components, Normalized, EntriesOk, LinksOf, FilesOf, Relative;
    LinksAreEntries(entries, version);
    if f in LinksOf(entries) {
      LinkNamed(entries, f);
      var j :| 0 <= j < |entries| && entries[j].kind.Link? && entries[j].path == f;
      EntryIsRelative(entries, j);
      assert entries[j] in entries && HoldsContent(entries[j]);
    } else {
      var e :| Supplies(entries, e, f);
      var j :| 0 <= j < |entries| && entries[j] == e;
      EntryIsRelative(entries, j);
      assert HoldsContent(e);
    }
  }

  /** Above content there are directories. */
  lemma StackAboveIsDirectory(entries: seq<Entry>, stack: Parts, e: Entry)
    requires Unpacks(entries) && e in entries && HoldsContent(e) && Relative(e.path)
    requires stack <= Components(e.path) && |stack| < |Components(e.path)|
    ensures IsDir(entries, Place(stack))
  {
    hide Kept, IsDir, Holding;
    var i :| 0 <= i < |entries| && entries[i] == e;
    assert Real(e.path) != [];
    NameIsPlace(e.path);
    PlacesNest(stack, Components(e.path));
    if stack != [] { assert stack[0] == Components(e.path)[0]; }
    AboveIsDirectory(entries, e, Place(stack));
  }

  lemma BelowDirectory(entries: seq<Entry>, stack: Parts, segment: string)
    requires Unpacks(entries) && !IsNoise(segment) && IsDir(entries, Place(stack + [segment]))
    ensures IsDir(entries, Place(stack))
  {
    hide Kept, Holding;
    var below := Place(stack + [segment]);
    assert below == Place(stack) + [segment];
    var e :| e in entries && !e.kind.Metadata? && below <= Real(e.path);
    AboveIsDirectory(entries, e, Place(stack));
  }

  lemma {:induction false} UnsettledIsDirectory(entries: seq<Entry>, from: Parts, text: Raw, e: Entry, k: nat)
    requires Unpacks(entries) && SettledOnDirectories(entries, from, text) && Walk(from, Kept(text)).Some? && k < |text|
    requires e in entries && HoldsContent(e) && Relative(e.path) && StackAt(from, text, |text|) <= Components(e.path)
    ensures StandsOnDirectory(entries, from, text, k)
    decreases |text| - k
  {
    hide Kept, Walk, IsDir, Unpacks, Place, Components, Relative;
    if !Settles(text, k) {
      StackNext(from, text, k);
      var here := StackAt(from, text, k);
      if IsNoise(text[k]) {
        assert k + 1 < |text|;
        UnsettledIsDirectory(entries, from, text, e, k + 1);
      } else {
        var top := here + [text[k]];
        PoppedOrKept(from, text, k + 1, top);
        if top <= StackAt(from, text, |text|) {
          StackAboveIsDirectory(entries, here, e);
        } else {
          var j :| k + 1 <= j < |text| && text[j] == ".." && StackAt(from, text, j) == top;
          assert StandsOnDirectory(entries, from, text, j);
          BelowDirectory(entries, here, text[k]);
        }
      }
    }
  }

  /** In an accepted archive that unpacks, the stack of a link is where the tree leads if and only if each `..` of its
      text, and a separator at its end, comes after a directory, and no `..` climbs over a leading `.`. */
  lemma AcceptedLinkIsExactIff(entries: seq<Entry>, version: nat, i: nat)
    requires Acceptable(entries, version) && Unpacks(entries) && i < |entries| && entries[i].kind.Link?
    ensures Components(entries[i].path) != []
    ensures Tracks(entries, Parent(entries[i].path), entries[i].kind.text)
            <==> SettledOnDirectories(entries, Parent(entries[i].path), entries[i].kind.text)
    ensures SettledOnDirectories(entries, Parent(entries[i].path), entries[i].kind.text)
            <==> OnDirectories(entries, entries[i].path, entries[i].kind.text)
  {
    hide Kept, Walk, IsDir, Place, Components, Relative, Tracks, EntriesOk, FilesOf, LinksOf, Detects, TargetOk, StandsOnDirectory;
    TargetIsAboveContent(entries, version, i);
    var l, text := entries[i].path, entries[i].kind.text;
    EntryIsRelative(entries, i);
    assert HoldsContent(entries[i]);
    StackIsExactIffOnDirectories(entries, l, text);
    assert text[..|text|] == text;
    var e :| e in entries && HoldsContent(e) && Relative(e.path) && Normalized(l, text).value <= Components(e.path);
    if SettledOnDirectories(entries, Parent(l), text) {
      forall k | 0 <= k < |text| ensures StandsOnDirectory(entries, Parent(l), text, k) {
        UnsettledIsDirectory(entries, Parent(l), text, e, k);
      }
    }
  }

  /** Every `..` and every last separator of a link's text comes after a directory. */
  predicate AllSettled(entries: seq<Entry>) {
    forall e | e in entries && e.kind.Link? :: Components(e.path) != [] && SettledOnDirectories(entries, Parent(e.path), e.kind.text)
  }

  lemma SettledIsOnDirectories(entries: seq<Entry>, version: nat)
    requires Acceptable(entries, version) && Unpacks(entries) && AllSettled(entries)
    ensures AllOnDirectories(entries)
  {
    hide Acceptable, Unpacks, SettledOnDirectories, OnDirectories, Components;
    forall e | e in entries && e.kind.Link? ensures Components(e.path) != [] && OnDirectories(entries, e.path, e.kind.text) {
      var i :| 0 <= i < |entries| && entries[i] == e;
      AcceptedLinkIsExactIff(entries, version, i);
    }
  }

  /** In an accepted archive that unpacks, and where every `..` and every last separator of a link's text comes after a
      directory, resolving a link in the tree ends where the check says: at a regular file, or in version 2 at a
      directory without links of names that are dotted alike or at a regular file whose name is not tidy. */
  lemma LinksEndAtContent(entries: seq<Entry>, version: nat, i: nat)
    requires Acceptable(entries, version) && Unpacks(entries) && AllSettled(entries)
    requires i < |entries| && entries[i].kind.Link?
    ensures var l, links := entries[i].path, LinksOf(entries);
            && Real(l) != [] && l in links && Terminates(links, links[l])
            && Lands(entries, Start(l, entries[i].kind.text), TargetPlace(Final(links, links[l])))
            && EndsWell(entries, version, Final(links, links[l]))
  {
    SettledIsOnDirectories(entries, version);
    hide EntriesOk, FilesOf, LinksOf, Unpacks, AllOnDirectories, AllSettled, Detects, TargetOk, Step, TargetPlace, Kept, EndsWell;
    HopAgrees(entries, i);
    var l, links, start := entries[i].path, LinksOf(entries), Start(entries[i].path, entries[i].kind.text);
    TargetIsHeld(entries, version, l);
    var t := Final(links, links[l]);
    EndsWellArrives(entries, version, t);
    var n: nat :| EndsIn(links, links[l], n) && t == After(links, links[l], n);
    MapAgrees(entries, links[l], n);
    var h: nat :| StepsFrom(entries, start, h) == Some(Spot(TargetPlace(links[l]), []));
    var k: nat :| StepsFrom(entries, Spot(TargetPlace(links[l]), []), k) == Some(Spot(TargetPlace(t), []));
    StepsAdd(entries, start, h, k);
  }
}
