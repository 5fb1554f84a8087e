/** Accepted archives whose links lead elsewhere than the archive check says. */
module LinkExamples {
  import opened Effects
  import opened Links
  import opened LinkResolution
  import opened LinkArchives

  const SHARED_FILE: Entry := Entry(["d", "f"], false, File("1"))
  const NEAR_LINK: Entry := Entry(["p", "q", "a"], false, Link(["..", "..", "d"]))
  const NEAR_FILE: Entry := Entry(["p", "x"], false, File("2"))
  const FAR_LINK: Entry := Entry(["p", "q", "b"], false, Link(["a", "..", "..", "x"]))

  lemma FarPaths()
    ensures Kept(["d", "f"]) == ["d", "f"] && Kept(["p", "q", "a"]) == ["p", "q", "a"] && Kept(["p", "x"]) == ["p", "x"]
    ensures Kept(["p", "q", "b"]) == ["p", "q", "b"]
    ensures Normalized(NEAR_LINK.path, NEAR_LINK.kind.text) == Some(["d"])
    ensures Normalized(FAR_LINK.path, FAR_LINK.kind.text) == Some(["p", "x"])
  {
    hide Kept, Walk;
    CleanIsKept(["d", "f"]);
    CleanIsKept(["p", "q", "a"]);
    CleanIsKept(["p", "x"]);
    CleanIsKept(["p", "q", "b"]);
    CleanIsKept(["..", "..", "d"]);
    CleanIsKept(["a", "..", "..", "x"]);
    assert Parent(NEAR_LINK.path) == ["p", "q"] && Parent(FAR_LINK.path) == ["p", "q"];
    NearWalk();
    FarWalk();
  }

  lemma NearWalk()
    ensures Walk(["p", "q"], ["..", "..", "d"]) == Some(["d"])
  {
    hide Walk;
    WalkStep(["p", "q"], "..", ["..", "d"]);
    WalkStep(["p"], "..", ["d"]);
    WalkStep([], "d", []);
    WalkNothing(["d"]);
    assert [".."] + ["..", "d"] == ["..", "..", "d"] && [".."] + ["d"] == ["..", "d"] && ["d"] + [] == ["d"];
    assert ["p", "q"][..1] == ["p"] && ["p"][..0] == [] && [] + ["d"] == ["d"];
  }

  lemma FarWalk()
    ensures Walk(["p", "q"], ["a", "..", "..", "x"]) == Some(["p", "x"])
  {
    hide Walk;
    WalkStep(["p", "q"], "a", ["..", "..", "x"]);
    WalkStep(["p", "q", "a"], "..", ["..", "x"]);
    WalkStep(["p", "q"], "..", ["x"]);
    WalkStep(["p"], "x", []);
    WalkNothing(["p", "x"]);
    assert ["a"] + ["..", "..", "x"] == ["a", "..", "..", "x"] && [".."] + ["..", "x"] == ["..", "..", "x"];
    assert [".."] + ["x"] == ["..", "x"] && ["x"] + [] == ["x"];
    assert ["p", "q", "a"][..2] == ["p", "q"] && ["p", "q"][..1] == ["p"];
    assert ["p"] + ["x"] == ["p", "x"] && ["p", "q"] + ["a"] == ["p", "q", "a"];
  }

  lemma WalkNothing(from: Parts)
    ensures Walk(from, []) == Some(from)
  {
  }

  lemma FarUnpacks()
    ensures Unpacks([SHARED_FILE, NEAR_LINK, NEAR_FILE, FAR_LINK])
  {
    hide Kept, Normalized;
    FarPaths();
    assert ["d", "f"][0] != ["p", "x"][0] == ["p", "q", "a"][0] == ["p", "q", "b"][0];
    assert ["p", "x"][1] != ["p", "q", "a"][1] == ["p", "q", "b"][1];
    assert ["p", "q", "a"][2] != ["p", "q", "b"][2];
  }

  lemma FarCollected()
    ensures var entries := [SHARED_FILE, NEAR_LINK, NEAR_FILE, FAR_LINK];
            && EntriesOk(entries) && LinksOf(entries) == map[NEAR_LINK.path := ["d"], FAR_LINK.path := ["p", "x"]]
            && FilesOf(entries, 2).Keys == {SHARED_FILE.path, NEAR_LINK.path, NEAR_FILE.path, FAR_LINK.path}
  {
    FarPaths();
    hide Kept, Normalized, Walk, Relative;
    var entries := [SHARED_FILE, NEAR_LINK, NEAR_FILE, FAR_LINK];
    assert Relative(SHARED_FILE.path) && Relative(NEAR_LINK.path) && Relative(NEAR_FILE.path) && Relative(FAR_LINK.path) by { FarRelative(); }
    assert EntriesOk(entries);
    var three, two, one := [SHARED_FILE, NEAR_LINK, NEAR_FILE], [SHARED_FILE, NEAR_LINK], [SHARED_FILE];
    assert entries[..3] == three && three[..2] == two && two[..1] == one && one[..0] == [];
    EntriesTake(entries, 3);
    EntriesTake(three, 2);
    EntriesTake(two, 1);
    assert LinksOf(one) == map[] && LinksOf(two) == WithLink(map[], NEAR_LINK) && LinksOf(three) == LinksOf(two);
    assert FilesOf(one, 2).Keys == {SHARED_FILE.path} && FilesOf(two, 2).Keys == {SHARED_FILE.path, NEAR_LINK.path};
    assert FilesOf(three, 2).Keys == {SHARED_FILE.path, NEAR_LINK.path, NEAR_FILE.path};
  }

  lemma FarRelative()
    ensures Relative(SHARED_FILE.path) && Relative(NEAR_LINK.path) && Relative(NEAR_FILE.path) && Relative(FAR_LINK.path)
  {
  }

  lemma FarAccepted()
    ensures Acceptable([SHARED_FILE, NEAR_LINK, NEAR_FILE, FAR_LINK], 2)
  {
    FarPaths();
    FarCollected();
    hide *;
    var entries := [SHARED_FILE, NEAR_LINK, NEAR_FILE, FAR_LINK];
    var links := LinksOf(entries);
    assert links.Keys == {NEAR_LINK.path, FAR_LINK.path};
    forall l | l in links ensures TargetOk(FilesOf(entries, 2), links, 2, links[l]) { FarTargets(l); }
    forall l, e | l in links && e in entries ensures !Detects(l, e.path) { FarUndetected(l, e); }
    IsAcceptable(entries, 2);
  }

  lemma IsAcceptable(entries: seq<Entry>, version: nat)
    requires EntriesOk(entries)
    requires forall l, e :: l in LinksOf(entries) && e in entries ==> !Detects(l, e.path)
    requires forall l :: l in LinksOf(entries) ==> TargetOk(FilesOf(entries, version), LinksOf(entries), version, LinksOf(entries)[l])
    ensures Acceptable(entries, version)
  {
    hide EntriesOk, LinksOf, FilesOf, TargetOk, Detects;
  }

  lemma FarTargets(l: Raw)
    requires l == NEAR_LINK.path || l == FAR_LINK.path
    ensures var entries := [SHARED_FILE, NEAR_LINK, NEAR_FILE, FAR_LINK];
            && EntriesOk(entries) && l in LinksOf(entries)
            && TargetOk(FilesOf(entries, 2), LinksOf(entries), 2, LinksOf(entries)[l])
  {
    FarPaths();
    FarCollected();
    hide EntriesOk, LinksOf, FilesOf, Kept, Normalized, Terminates;
    var entries := [SHARED_FILE, NEAR_LINK, NEAR_FILE, FAR_LINK];
    var links, files := LinksOf(entries), FilesOf(entries, 2);
    FinalIs(links, links[l], 0, links[l]);
    CleanIsKept(["d"]);
    assert SHARED_FILE.path in files && ["d"] <= ["d", "f"];
  }

  lemma FarUndetected(l: Raw, e: Entry)
    requires l == NEAR_LINK.path || l == FAR_LINK.path
    requires e in [SHARED_FILE, NEAR_LINK, NEAR_FILE, FAR_LINK]
    ensures !Detects(l, e.path)
  {
    hide Kept, Normalized;
    FarPaths();
    TooShort(l, e.path);
  }

  /** An accepted archive in which `..` after a link is applied to where that link leads, so that resolving the second
      link leaves the root. */
  lemma BorrowedParentLeaves()
    ensures var entries := [SHARED_FILE, NEAR_LINK, NEAR_FILE, FAR_LINK];
            && Acceptable(entries, 2) && Unpacks(entries) && !Dotted(FAR_LINK.path)
            && Normalized(FAR_LINK.path, FAR_LINK.kind.text) == Some(["p", "x"])
            && Leaves(entries, Start(FAR_LINK.path, FAR_LINK.kind.text))
  {
    FarPaths();
    FarUnpacks();
    FarAccepted();
    hide *;
    var entries := [SHARED_FILE, NEAR_LINK, NEAR_FILE, FAR_LINK];
    FarDirectories();
    FarSteps(entries);
  }

  lemma FarDirectories()
    ensures var entries := [SHARED_FILE, NEAR_LINK, NEAR_FILE, FAR_LINK];
            && IsDir(entries, ["p", "q"]) && IsDir(entries, ["p"]) && IsDir(entries, []) && IsDir(entries, ["d"])
            && Holding(entries, ["p", "q", "a"]) == Some(NEAR_LINK.kind)
            && Real(FAR_LINK.path) != [] && !Dotted(FAR_LINK.path)
            && Start(FAR_LINK.path, FAR_LINK.kind.text) == Spot(["p", "q"], ["a", "..", "..", "x"])
  {
    hide Kept, Unpacks, Holding, IsDir, Normalized;
    FarPaths();
    FarUnpacks();
    var entries := [SHARED_FILE, NEAR_LINK, NEAR_FILE, FAR_LINK];
    assert ["p", "q", "b"][..2] == ["p", "q"];
    EntryIsHeld(entries, NEAR_LINK);
    AboveIsDirectory(entries, NEAR_LINK, ["p", "q"]);
    AboveIsDirectory(entries, NEAR_LINK, ["p"]);
    AboveIsDirectory(entries, NEAR_LINK, []);
    AboveIsDirectory(entries, SHARED_FILE, ["d"]);
  }

  lemma FarSteps(entries: seq<Entry>)
    requires IsDir(entries, ["p", "q"]) && IsDir(entries, ["p"]) && IsDir(entries, []) && IsDir(entries, ["d"])
    requires Holding(entries, ["p", "q", "a"]) == Some(NEAR_LINK.kind)
    ensures Leaves(entries, Spot(["p", "q"], ["a", "..", "..", "x"]))
  {
    hide Kept, Holding, IsDir, Step;
    var back := ["..", "..", "x"];
    assert ["a"] + back == ["a", "..", "..", "x"] && ["..", "..", "d"] + back == [".."] + (["..", "d"] + back);
    assert ["..", "d"] + back == [".."] + (["d"] + back) && back == [".."] + ["..", "x"] && ["..", "x"] == [".."] + ["x"];
    assert [] + ["d"] == ["d"] && ["p", "q"] + ["a"] == ["p", "q", "a"];
    assert ["p", "q", "a"][..2] == ["p", "q"] && ["p", "q"][..1] == ["p"] && ["p"][..0] == [] && ["d"][..0] == [];
    DirectoryStep(entries, ["p", "q"], "a", back);
    LinkFollowed(entries, ["p", "q", "a"], back);
    DirectoryStep(entries, ["p", "q"], "..", ["..", "d"] + back);
    DirectoryStep(entries, ["p"], "..", ["d"] + back);
    DirectoryStep(entries, [], "d", back);
    DirectoryStep(entries, ["d"], "..", ["..", "x"]);
    DirectoryStep(entries, [], "..", ["x"]);
    assert StepsFrom(entries, Spot(["d"], back), 1) == Some(Spot([], ["..", "x"]));
    assert StepsFrom(entries, Spot([], ["d"] + back), 2) == Some(Spot([], ["..", "x"]));
    assert StepsFrom(entries, Spot(["p"], ["..", "d"] + back), 3) == Some(Spot([], ["..", "x"]));
    assert StepsFrom(entries, Spot(["p", "q"], ["..", "..", "d"] + back), 4) == Some(Spot([], ["..", "x"]));
    assert StepsFrom(entries, Spot(["p", "q", "a"], back), 5) == Some(Spot([], ["..", "x"]));
    assert StepsFrom(entries, Spot(["p", "q"], ["a"] + back), 6) == Some(Spot([], ["..", "x"]));
  }

  lemma DirectoryStep(entries: seq<Entry>, p: Parts, segment: string, rest: Raw)
    requires IsDir(entries, p) && segment != "" && segment != "."
    ensures Step(entries, Spot(p, [segment] + rest))
            == if segment != ".." then To(Spot(p + [segment], rest)) else if p == [] then Outside else To(Spot(p[..|p| - 1], rest))
  {
    hide IsDir;
    DirectoryHoldsNothing(entries, p);
    assert ([segment] + rest)[1..] == rest;
  }

  lemma LinkFollowed(entries: seq<Entry>, p: Parts, rest: Raw)
    requires p != [] && Holding(entries, p).Some? && Holding(entries, p).value.Link? && !Absolute(Holding(entries, p).value.text)
    ensures Step(entries, Spot(p, rest)) == To(Spot(p[..|p| - 1], Holding(entries, p).value.text + rest))
  {
  }

  const PLAIN_FILE: Entry := Entry(["f"], false, File("1"))
  const OTHER_FILE: Entry := Entry(["x"], false, File("2"))
  const THROUGH_LINK: Entry := Entry(["b"], false, Link(["f", "..", "x"]))

  lemma ThroughPaths()
    ensures Kept(["f"]) == ["f"] && Kept(["x"]) == ["x"] && Kept(["b"]) == ["b"]
    ensures Normalized(THROUGH_LINK.path, THROUGH_LINK.kind.text) == Some(["x"])
    ensures StackAt([], THROUGH_LINK.kind.text, 0) == [] && StackAt([], THROUGH_LINK.kind.text, 1) == ["f"]
  {
    hide Kept, Walk;
    CleanIsKept(["f"]);
    CleanIsKept(["x"]);
    CleanIsKept(["b"]);
    CleanIsKept(["f", "..", "x"]);
    CleanIsKept([]);
    WalkNothing([]);
    WalkNothing(["f"]);
    WalkNothing(["x"]);
    assert THROUGH_LINK.kind.text[..0] == [] && THROUGH_LINK.kind.text[..1] == ["f"];
    WalkStep([], "f", ["..", "x"]);
    WalkStep(["f"], "..", ["x"]);
    WalkStep([], "x", []);
    WalkStep([], "f", []);
    assert [] + ["f"] == ["f"] && [] + ["x"] == ["x"] && ["f"][..0] == [];
    assert ["f"] + ["..", "x"] == ["f", "..", "x"] && [".."] + ["x"] == ["..", "x"] && ["x"] + [] == ["x"] && ["f"] + [] == ["f"];
  }

  lemma ThroughCollected()
    ensures var entries := [PLAIN_FILE, OTHER_FILE, THROUGH_LINK];
            && EntriesOk(entries) && LinksOf(entries) == map[THROUGH_LINK.path := ["x"]] && ["x"] in FilesOf(entries, 1)
  {
    ThroughPaths();
    hide Kept, Normalized, Walk;
    var entries := [PLAIN_FILE, OTHER_FILE, THROUGH_LINK];
    assert EntriesOk(entries);
    assert entries[..2] == [PLAIN_FILE, OTHER_FILE] && entries[..2][..1] == [PLAIN_FILE] && entries[..2][..1][..0] == [];
    EntriesTake(entries, 2);
    EntriesTake(entries[..2], 1);
    assert LinksOf([PLAIN_FILE]) == map[] && LinksOf([PLAIN_FILE, OTHER_FILE]) == map[];
  }

  lemma ThroughAccepted()
    ensures Acceptable([PLAIN_FILE, OTHER_FILE, THROUGH_LINK], 1)
  {
    var entries := [PLAIN_FILE, OTHER_FILE, THROUGH_LINK];
    ThroughPaths();
    ThroughCollected();
    hide Kept, Walk, EntriesOk, LinksOf, FilesOf, Terminates;
    FinalIs(LinksOf(entries), ["x"], 0, ["x"]);
    forall l, e | l in LinksOf(entries) && e in entries ensures !Detects(l, e.path) {
      TooShort(l, e.path);
    }
    hide Detects;
  }

  lemma ThroughUnpacks()
    ensures Unpacks([PLAIN_FILE, OTHER_FILE, THROUGH_LINK])
  {
    hide Kept, Normalized;
    ThroughPaths();
    assert ["f"][0] != ["x"][0] && ["f"][0] != ["b"][0] && ["x"][0] != ["b"][0];
  }

  /** An accepted archive in which `..` comes after a regular file, so that the link leads nowhere. */
  lemma FileBeforeUpIsMissed(p: Parts)
    ensures var entries := [PLAIN_FILE, OTHER_FILE, THROUGH_LINK];
            && Acceptable(entries, 1) && Unpacks(entries) && !Dotted(THROUGH_LINK.path)
            && Normalized(THROUGH_LINK.path, THROUGH_LINK.kind.text) == Some(["x"])
            && !Lands(entries, Start(THROUGH_LINK.path, THROUGH_LINK.kind.text), p)
  {
    var entries := [PLAIN_FILE, OTHER_FILE, THROUGH_LINK];
    ThroughPaths();
    ThroughAccepted();
    ThroughUnpacks();
    assert Relative(THROUGH_LINK.path) && !Dotted(THROUGH_LINK.path);
    assert Parent(THROUGH_LINK.path) == [] && StackAt([], THROUGH_LINK.kind.text, 0) == [];
    hide Acceptable, Kept, Walk, Lands, Leaves, Holding, Normalized, Unpacks;
    EntryIsHeld(entries, PLAIN_FILE);
    AboveIsDirectory(entries, PLAIN_FILE, []);
    NonDirectoryBreaks(entries, THROUGH_LINK.path, THROUGH_LINK.kind.text, 1, p);
  }

  const UNTIDY_LINK: Entry := Entry(["x", "", "l"], false, Link(["t"]))
  const UNTIDY_BELOW: Entry := Entry(["x", "l", "f"], false, File("b"))
  const UNTIDY_TARGET: Entry := Entry(["x", "t"], false, File("a"))

  lemma UntidyPaths()
    ensures Kept(UNTIDY_LINK.path) == ["x", "l"] && Kept(UNTIDY_BELOW.path) == ["x", "l", "f"] && Kept(UNTIDY_TARGET.path) == ["x", "t"]
    ensures Normalized(UNTIDY_LINK.path, ["t"]) == Some(["x", "t"])
  {
    hide Kept, Walk;
    CleanIsKept(["x", "l", "f"]);
    CleanIsKept(["x", "t"]);
    UntidyKept();
    CleanIsKept(["t"]);
    assert Parent(UNTIDY_LINK.path) == ["x"];
    WalkStep(["x"], "t", []);
    WalkNothing(["x", "t"]);
    assert ["t"] + [] == ["t"] && ["x"] + ["t"] == ["x", "t"];
  }

  lemma UntidyKept()
    ensures Kept(["x", "", "l"]) == ["x", "l"]
  {
    hide Kept;
    CleanIsKept(["l"]);
    KeptStep("", ["l"]);
    KeptStep("x", ["", "l"]);
    assert ["x", "", "l"] == ["x"] + ["", "l"] && ["", "l"] == [""] + ["l"];
    assert [] + ["l"] == ["l"] && ["x"] + ["l"] == ["x", "l"];
  }

  lemma UntidyRelative()
    ensures Relative(UNTIDY_LINK.path) && Relative(UNTIDY_BELOW.path) && Relative(UNTIDY_TARGET.path)
    ensures !Dotted(UNTIDY_LINK.path) && !Dotted(UNTIDY_BELOW.path) && !Dotted(UNTIDY_TARGET.path)
  {
  }

  lemma UntidyCollected()
    ensures var entries := [UNTIDY_LINK, UNTIDY_BELOW, UNTIDY_TARGET];
            && EntriesOk(entries) && LinksOf(entries) == map[UNTIDY_LINK.path := ["x", "t"]] && ["x", "t"] in FilesOf(entries, 1)
  {
    UntidyPaths();
    UntidyRelative();
    hide Kept, Normalized, Walk, Relative;
    var entries := [UNTIDY_LINK, UNTIDY_BELOW, UNTIDY_TARGET];
    assert EntriesOk(entries);
    var two, one := [UNTIDY_LINK, UNTIDY_BELOW], [UNTIDY_LINK];
    assert entries[..2] == two && two[..1] == one && one[..0] == [];
    EntriesTake(entries, 2);
    EntriesTake(two, 1);
    assert LinksOf(one) == WithLink(map[], UNTIDY_LINK) && LinksOf(two) == LinksOf(one);
  }

  lemma UntidyUndetected(e: Entry)
    requires e in [UNTIDY_LINK, UNTIDY_BELOW, UNTIDY_TARGET]
    ensures !Detects(UNTIDY_LINK.path, e.path)
  {
    hide Kept, Normalized;
    UntidyPaths();
    UntidyRelative();
    TooShort(UNTIDY_LINK.path, e.path);
  }

  lemma UntidyTarget()
    ensures var entries := [UNTIDY_LINK, UNTIDY_BELOW, UNTIDY_TARGET];
            EntriesOk(entries) && TargetOk(FilesOf(entries, 1), LinksOf(entries), 1, ["x", "t"])
  {
    UntidyCollected();
    hide EntriesOk, LinksOf, FilesOf, Kept, Normalized, Terminates;
    FinalIs(LinksOf([UNTIDY_LINK, UNTIDY_BELOW, UNTIDY_TARGET]), ["x", "t"], 0, ["x", "t"]);
  }

  /** Without tidiness the check fails: a link written with a doubled separator is not found above the entry. */
  lemma UntidyLinkIsMissed()
    ensures Acceptable([UNTIDY_LINK, UNTIDY_BELOW, UNTIDY_TARGET], 1) && Below(UNTIDY_LINK.path, UNTIDY_BELOW.path)
  {
    UntidyPaths();
    assert Below(UNTIDY_LINK.path, UNTIDY_BELOW.path);
    hide *;
    var entries := [UNTIDY_LINK, UNTIDY_BELOW, UNTIDY_TARGET];
    UntidyCollected();
    UntidyTarget();
    forall l, e | l in LinksOf(entries) && e in entries ensures !Detects(l, e.path) { UntidyUndetected(e); }
    IsAcceptable(entries, 1);
  }
}
