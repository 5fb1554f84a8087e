/** Symbolic links of a source archive: lexical normalisation against the archive root, following with cycle
    detection, and the inventory that is accepted only when every link ends at content of the archive. */
module Links {
  import opened Effects

  /** A path as written, split at its separators; `[""]` is the empty text. */
  type Raw = seq<string>

  /** A normalised path. */
  type Parts = seq<string>

  /** SHA-256 of some content. */
  datatype Hash = Sha(content: string) | ShaPath(path: Raw)

  datatype Kind = File(content: string) | Directory | Link(text: Raw) | Metadata(supported: bool) | Unsupported

  datatype Entry = Entry(path: Raw, executable: bool, kind: Kind)

  datatype SourceFile = SourceFile(hash: Hash, executable: bool, link: Option<Raw>)

  // ---------- paths ----------

  /** Components as the path library gives them: empty and interior `.` segments vanish. */
  function Kept(raw: Raw): Parts {
    if raw == [] then [] else (if raw[0] == "" || raw[0] == "." then [] else [raw[0]]) + Kept(raw[1..])
  }

  /** A leading `.` stays a component of its own. */
  function Components(raw: Raw): Parts { if raw != [] && raw[0] == "." then ["."] + Kept(raw[1..]) else Kept(raw) }

  /** Where the path really is below the root. */
  function Real(raw: Raw): Parts { Kept(raw) }

  predicate Absolute(raw: Raw) { |raw| > 1 && raw[0] == "" }

  /** Not empty, not absolute, no `..`. */
  predicate Relative(raw: Raw) { raw != [] && raw[0] != "" && ".." !in raw }

  predicate Dotted(raw: Raw) { raw != [] && raw[0] == "." }

  function Text(parts: Parts): Raw { if parts == [] then [""] else parts }

  lemma {:induction false} KeptMembers(raw: Raw)
    ensures forall p :: p in Kept(raw) <==> p in raw && p != "" && p != "."
  {
    if raw != [] {
      KeptMembers(raw[1..]);
      assert raw == [raw[0]] + raw[1..];
    }
  }

  // ---------- one link ----------

  /** Resolve components from a directory; leaving the root fails. */
  function Walk(from: Parts, link: Parts): Option<Parts>
    decreases link
  {
    if link == [] then Some(from)
    else if link[0] == ".." then if from == [] then None else Walk(from[..|from| - 1], link[1..])
    else Walk(from + [link[0]], link[1..])
  }

  function Parent(name: Raw): Parts
    requires Components(name) != []
  {
    Components(name)[..|Components(name)| - 1]
  }

  function Normalized(name: Raw, link: Raw): Option<Parts>
    requires Components(name) != []
  {
    if Absolute(link) then None else Walk(Parent(name), Kept(link))
  }

  lemma RelativeHasComponents(raw: Raw)
    requires Relative(raw)
    ensures Components(raw) != []
  {
  }

  /** The component stack, pushed and popped in place. */
  method NormalizeLink(name: Raw, link: Raw) returns (r: Option<Parts>)
    requires Components(name) != []
    ensures r == Normalized(name, link)
  {
    if Absolute(link) { return None; }
    var parts := Parent(name);
    var components := Kept(link);
    for i := 0 to |components|
      invariant Walk(parts, components[i..]) == Walk(Parent(name), components)
    {
      if components[i] == ".." {
        if parts == [] { return None; }
        parts := parts[..|parts| - 1];
      } else {
        parts := parts + [components[i]];
      }
    }
    r := Some(parts);
  }

  // ---------- entries below a link ----------

  predicate IsTidy(raw: Raw) { raw == Components(raw) }

  /** The archive check: some proper ancestor of the entry, as text, is the link's name as written. */
  predicate Detects(link: Raw, entry: Raw) {
    exists n | 0 <= n < |Components(entry)| :: link == Text(Components(entry)[..n])
  }

  predicate Below(link: Raw, entry: Raw) { |Real(link)| < |Real(entry)| && Real(link) <= Real(entry) }

  /** A leading `.` is the only difference between the components and the real place. */
  lemma ComponentsAreReal(raw: Raw)
    requires Relative(raw)
    ensures Components(raw) == (if Dotted(raw) then ["."] else []) + Real(raw)
    ensures Components(raw) != []
  {
  }

  lemma {:induction false} CleanIsKept(parts: Parts)
    requires "" !in parts && "." !in parts
    ensures Kept(parts) == parts
  {
    if parts != [] {
      CleanIsKept(parts[1..]);
    }
  }

  lemma KeptTakeIsKept(raw: Raw, n: nat)
    requires n <= |Kept(raw)|
    ensures Kept(Kept(raw)[..n]) == Kept(raw)[..n]
  {
    KeptMembers(raw);
    var take := Kept(raw)[..n];
    forall p | p in take ensures p in Kept(raw) {
      var i :| 0 <= i < n && take[i] == p;
      assert Kept(raw)[i] == p;
    }
    CleanIsKept(take);
  }

  /** Every ancestor's text is tidy. */
  lemma PrefixIsTidy(entry: Raw, n: nat)
    requires Relative(entry) && 0 < n <= |Components(entry)|
    ensures IsTidy(Components(entry)[..n]) && Dotted(Components(entry)[..n]) == Dotted(entry)
  {
    hide Kept;
    var prefix := Components(entry)[..n];
    ComponentsAreReal(entry);
    KeptMembers(entry);
    if Dotted(entry) {
      KeptTakeIsKept(entry, n - 1);
      assert prefix[1..] == Kept(entry)[..n - 1];
      assert prefix == ["."] + prefix[1..];
    } else {
      KeptTakeIsKept(entry, n);
      assert prefix == Kept(entry)[..n];
      assert Components(entry)[0] in Kept(entry);
    }
  }

  /** An entry below a link is noticed exactly when the link's name is tidy and both or neither start with
      `.`. */
  lemma DetectedIffTidy(link: Raw, entry: Raw)
    requires Relative(link) && Relative(entry) && Below(link, entry)
    ensures Detects(link, entry) <==> IsTidy(link) && Dotted(link) == Dotted(entry)
  {
    ComponentsAreReal(link);
    ComponentsAreReal(entry);
    if IsTidy(link) && Dotted(link) == Dotted(entry) {
      var n := |Components(link)|;
      assert Components(entry)[..n] == Components(link);
      assert link == Text(Components(entry)[..n]);
    }
    if Detects(link, entry) {
      var n :| 0 <= n < |Components(entry)| && link == Text(Components(entry)[..n]);
      PrefixIsTidy(entry, n);
    }
  }

  // ---------- following links ----------

  /** Links by their names as written; targets are the texts of normalised paths. */
  type LinkMap = map<Raw, Raw>

  /** Following from `x` ends, at something that is not a link, after exactly `n` steps. */
  predicate EndsIn(links: LinkMap, x: Raw, n: nat)
    decreases n
  {
    if n == 0 then x !in links else x in links && EndsIn(links, links[x], n - 1)
  }

  function After(links: LinkMap, x: Raw, n: nat): Raw
    decreases n
  {
    if n == 0 || x !in links then x else After(links, links[x], n - 1)
  }

  ghost predicate Terminates(links: LinkMap, x: Raw) { exists n :: EndsIn(links, x, n) }

  lemma {:induction false} EndsOnce(links: LinkMap, x: Raw, m: nat, n: nat)
    requires EndsIn(links, x, m) && EndsIn(links, x, n)
    ensures m == n
    decreases m
  {
    if m > 0 && n > 0 { EndsOnce(links, links[x], m - 1, n - 1); }
  }

  /** `k` steps lead from `x` to `y`, through links only. */
  predicate Leads(links: LinkMap, x: Raw, k: nat, y: Raw)
    decreases k
  {
    if k == 0 then x == y else x in links && Leads(links, links[x], k - 1, y)
  }

  lemma {:induction false} LeadsNext(links: LinkMap, x: Raw, k: nat, y: Raw)
    requires Leads(links, x, k, y) && y in links
    ensures Leads(links, x, k + 1, links[y])
    decreases k
  {
    if k > 0 { LeadsNext(links, links[x], k - 1, y); }
  }

  lemma {:induction false} LeadsEnds(links: LinkMap, x: Raw, k: nat, y: Raw, n: nat)
    requires Leads(links, x, k, y)
    ensures EndsIn(links, y, n) ==> EndsIn(links, x, n + k) && After(links, x, n + k) == After(links, y, n)
    ensures EndsIn(links, x, n) ==> n >= k && EndsIn(links, y, n - k)
    decreases k
  {
    if k > 0 {
      LeadsEnds(links, links[x], k - 1, y, n);
      if n > 0 { LeadsEnds(links, links[x], k - 1, y, n - 1); }
    }
  }

  /** A cycle on the way: no number of steps ends. */
  lemma CycleNeverEnds(links: LinkMap, x: Raw, i: nat, y: Raw, k: nat)
    requires Leads(links, x, i, y) && Leads(links, y, k, y) && k > 0
    ensures !Terminates(links, x)
  {
    if Terminates(links, x) {
      var n: nat :| EndsIn(links, x, n);
      LeadsEnds(links, x, i, y, n);
      LeadsEnds(links, y, k, y, n - i);
      EndsOnce(links, y, n - i, n - i - k);
    }
  }

  /** Where following ends. */
  ghost function Final(links: LinkMap, x: Raw): Raw
    requires Terminates(links, x)
  {
    var n :| EndsIn(links, x, n);
    After(links, x, n)
  }

  lemma FinalIs(links: LinkMap, x: Raw, k: nat, y: Raw)
    requires Leads(links, x, k, y) && y !in links
    ensures Terminates(links, x) && Final(links, x) == y
  {
    LeadsEnds(links, x, k, y, 0);
    assert EndsIn(links, y, 0);
    var n :| EndsIn(links, x, n) && Final(links, x) == After(links, x, n);
    EndsOnce(links, x, n, k);
  }

  /** Follow a link's target; a target seen before is a cycle. */
  method Follow(links: LinkMap, start: Raw) returns (r: Option<Raw>)
    ensures r.Some? <==> Terminates(links, start)
    ensures r.Some? ==> r.value == Final(links, start) && r.value !in links
  {
    var target := start;
    var seen: set<Raw> := {};
    ghost var k := 0;
    while target in links
      invariant Leads(links, start, k, target)
      invariant seen <= links.Keys && forall s :: s in seen ==> OnTheWay(links, start, s, target)
      decreases links.Keys - seen
    {
      if target in seen {
        var i, j :| Leads(links, start, i, target) && j > 0 && Leads(links, target, j, target);
        CycleNeverEnds(links, start, i, target, j);
        return None;
      }
      forall s | s in seen + {target} ensures OnTheWay(links, start, s, links[target]) {
        if s == target {
          assert Leads(links, target, 0, target);
          LeadsNext(links, target, 0, target);
        } else {
          var i, j :| Leads(links, start, i, s) && j > 0 && Leads(links, s, j, target);
          LeadsNext(links, s, j, target);
        }
      }
      LeadsNext(links, start, k, target);
      seen, k, target := seen + {target}, k + 1, links[target];
    }
    FinalIs(links, start, k, target);
    r := Some(target);
  }

  /** `s` lies on the way from `start` to `target`, before it. */
  ghost predicate OnTheWay(links: LinkMap, start: Raw, s: Raw, target: Raw) {
    exists i, j :: Leads(links, start, i, s) && j > 0 && Leads(links, s, j, target)
  }

  // ---------- the inventory ----------

  predicate EntryOk(e: Entry) {
    && Relative(e.path) && !e.kind.Unsupported? && (e.kind.Metadata? ==> e.kind.supported)
    && (e.kind.Link? ==> Components(e.path) != [] && Normalized(e.path, e.kind.text).Some?)
  }

  predicate EntriesOk(entries: seq<Entry>) {
    && (forall i | 0 <= i < |entries| :: EntryOk(entries[i]))
    && (forall i, j | 0 <= i < j < |entries| :: Components(entries[i].path) != Components(entries[j].path))
  }

  function WithLink(links: LinkMap, e: Entry): LinkMap
    requires EntryOk(e)
  {
    if e.kind.Link? then links[e.path := Text(Normalized(e.path, e.kind.text).value)] else links
  }

  function WithFile(files: map<Raw, SourceFile>, e: Entry, version: nat): map<Raw, SourceFile> {
    match e.kind
    case File(content) => files[e.path := SourceFile(Sha(content), e.executable, None)]
    case Link(text) => files[e.path := SourceFile(if version == 2 then ShaPath(text) else Sha(""), e.executable, Some(text))]
    case _ => files
  }

  function LinksOf(entries: seq<Entry>): LinkMap
    requires EntriesOk(entries)
  {
    if entries == [] then map[] else WithLink(LinksOf(entries[..|entries| - 1]), entries[|entries| - 1])
  }

  function FilesOf(entries: seq<Entry>, version: nat): map<Raw, SourceFile> {
    if entries == [] then map[] else WithFile(FilesOf(entries[..|entries| - 1], version), entries[|entries| - 1], version)
  }

  /** A directory target: something lies there, and no link does. */
  predicate LinkFreeDirectory(files: map<Raw, SourceFile>, links: LinkMap, t: Raw) {
    && (exists f | f in files :: Components(t) <= Components(f))
    && (forall l | l in links :: !(Components(t) <= Components(l)))
  }

  ghost predicate TargetOk(files: map<Raw, SourceFile>, links: LinkMap, version: nat, start: Raw) {
    && Terminates(links, start)
    && (Final(links, start) in files || (version == 2 && LinkFreeDirectory(files, links, Final(links, start))))
  }

  ghost predicate Acceptable(entries: seq<Entry>, version: nat) {
    && EntriesOk(entries)
    && (forall l, e :: l in LinksOf(entries) && e in entries ==> !Detects(l, e.path))
    && (forall l :: l in LinksOf(entries) ==> TargetOk(FilesOf(entries, version), LinksOf(entries), version, LinksOf(entries)[l]))
  }

  /** A version 1 link takes the hash of the file where following it ends. */
  ghost function AsResolved(files: map<Raw, SourceFile>, links: LinkMap, version: nat, done: set<Raw>, f: Raw): SourceFile
    requires f in files && forall l :: l in done ==> l in links && Terminates(links, links[l])
  {
    if version == 1 && f in done && Final(links, links[f]) in files
    then files[f].(hash := files[Final(links, links[f])].hash)
    else files[f]
  }

  ghost function Resolved(files: map<Raw, SourceFile>, links: LinkMap, version: nat): map<Raw, SourceFile>
    requires forall l :: l in links ==> Terminates(links, links[l])
  {
    map f | f in files :: AsResolved(files, links, version, links.Keys, f)
  }

  /** The entry is the regular file of that name. */
  predicate Supplies(entries: seq<Entry>, e: Entry, name: Raw) { e in entries && e.path == name && e.kind.File? }

  /** Where a link's own text leads from its place. */
  function Linked(e: Entry): Option<Raw>
    requires e.kind.Link?
  {
    if Components(e.path) == [] then None
    else match Normalized(e.path, e.kind.text)
      case Some(parts) => Some(Text(parts))
      case None => None
  }

  /** The entry is in the inventory as it is, if it is a file or a link. */
  ghost predicate Recorded(e: Entry, files: map<Raw, SourceFile>, links: LinkMap, version: nat) {
    && (e.kind.File? ==> e.path in files && e.path !in links && files[e.path] == SourceFile(Sha(e.kind.content), e.executable, None))
    && (e.kind.Link? ==>
          && e.path in files && e.path in links && Some(links[e.path]) == Linked(e)
          && files[e.path] == SourceFile(if version == 2 then ShaPath(e.kind.text) else Sha(""), e.executable, Some(e.kind.text)))
  }

  ghost predicate Names(e: Entry, f: Raw) { e.path == f && (e.kind.File? || e.kind.Link?) }

  lemma RecordedStays(e: Entry, files: map<Raw, SourceFile>, links: LinkMap, last: Entry, version: nat)
    requires EntryOk(last) && e.path != last.path && Recorded(e, files, links, version)
    ensures Recorded(e, WithFile(files, last, version), WithLink(links, last), version)
  {
    hide Normalized, Components, Linked, Relative;
  }

  lemma RecordedNow(files: map<Raw, SourceFile>, links: LinkMap, last: Entry, version: nat)
    requires EntryOk(last) && last.path !in links
    ensures Recorded(last, WithFile(files, last, version), WithLink(links, last), version)
  {
    hide Normalized, Components, Relative;
  }

  lemma LastIsNew(entries: seq<Entry>)
    requires EntriesOk(entries) && entries != []
    ensures var rest, last := entries[..|entries| - 1], entries[|entries| - 1];
            EntriesOk(rest) && EntryOk(last) && entries == rest + [last] && forall e :: e in rest ==> e.path != last.path
  {
    hide EntryOk, Components;
    var rest, last := entries[..|entries| - 1], entries[|entries| - 1];
    forall e | e in rest ensures e.path != last.path {
      var i :| 0 <= i < |rest| && rest[i] == e;
      assert Components(entries[i].path) != Components(entries[|rest|].path);
    }
  }

  lemma OneMoreEntry(entries: seq<Entry>, version: nat)
    requires EntriesOk(entries) && entries != [] && EntriesOk(entries[..|entries| - 1]) && EntryOk(entries[|entries| - 1])
    ensures var rest, last := entries[..|entries| - 1], entries[|entries| - 1];
            && FilesOf(entries, version) == WithFile(FilesOf(rest, version), last, version)
            && LinksOf(entries) == WithLink(LinksOf(rest), last)
  {
    hide EntryOk, EntriesOk, WithFile, WithLink;
  }

  /** Every entry is recorded as it is, and nothing else is. */
  lemma {:induction false} FilesAreExact(entries: seq<Entry>, version: nat)
    requires EntriesOk(entries)
    ensures forall e :: e in entries ==> Recorded(e, FilesOf(entries, version), LinksOf(entries), version)
    ensures forall f :: f in FilesOf(entries, version) ==> exists e :: e in entries && Names(e, f)
    ensures forall f :: f in LinksOf(entries) ==> exists e :: e in entries && Names(e, f) && e.kind.Link?
  {
    if entries != [] {
      LastIsNew(entries);
      OneMoreEntry(entries, version);
      hide Recorded, EntriesOk, FilesOf, LinksOf, EntryOk, Names, WithFile, WithLink;
      var rest, last := entries[..|entries| - 1], entries[|entries| - 1];
      FilesAreExact(rest, version);
      var files, links := FilesOf(rest, version), LinksOf(rest);
      forall f | f in links ensures f != last.path { NamedBefore(rest, last, f); }
      RecordedNow(files, links, last, version);
      forall e | e in entries ensures Recorded(e, FilesOf(entries, version), LinksOf(entries), version) {
        if e in rest { RecordedStays(e, files, links, last, version); }
      }
      forall f | f in FilesOf(entries, version) ensures exists e :: e in entries && Names(e, f) { NamedAfter(entries, files, links, last, version, f); }
      forall f | f in LinksOf(entries) ensures exists e :: e in entries && Names(e, f) && e.kind.Link? {
        NamedAfter(entries, files, links, last, version, f);
      }
    }
  }

  lemma NamedBefore(rest: seq<Entry>, last: Entry, f: Raw)
    requires (forall e :: e in rest ==> e.path != last.path) && exists e :: e in rest && Names(e, f)
    ensures f != last.path
  {
  }

  lemma NamedAfter(entries: seq<Entry>, files: map<Raw, SourceFile>, links: LinkMap, last: Entry, version: nat, f: Raw)
    requires EntryOk(last) && entries != [] && entries[|entries| - 1] == last
    requires f in files ==> exists e :: e in entries[..|entries| - 1] && Names(e, f)
    requires f in links ==> exists e :: e in entries[..|entries| - 1] && Names(e, f) && e.kind.Link?
    ensures f in WithFile(files, last, version) ==> exists e :: e in entries && Names(e, f)
    ensures f in WithLink(links, last) ==> exists e :: e in entries && Names(e, f) && e.kind.Link?
  {
    hide EntryOk;
    var rest := entries[..|entries| - 1];
    assert entries == rest + [last];
    if f in files {
      var e :| e in rest && Names(e, f);
      assert e in entries;
    }
    if f in links {
      var e :| e in rest && Names(e, f) && e.kind.Link?;
      assert e in entries;
    }
    assert last in entries;
  }

  lemma LinksAreEntries(entries: seq<Entry>, version: nat)
    requires EntriesOk(entries)
    ensures forall f :: f in LinksOf(entries) ==> f in FilesOf(entries, version) && FilesOf(entries, version)[f].link.Some?
    ensures forall f :: f in FilesOf(entries, version) && f !in LinksOf(entries) ==>
              exists e :: Supplies(entries, e, f) && FilesOf(entries, version)[f] == SourceFile(Sha(e.kind.content), e.executable, None)
    ensures forall f :: f in FilesOf(entries, version) ==> exists e :: e in entries && e.path == f
  {
    hide EntriesOk, FilesOf, LinksOf, Linked;
    FilesAreExact(entries, version);
    forall f | f in FilesOf(entries, version) && f !in LinksOf(entries)
      ensures exists e :: Supplies(entries, e, f) && FilesOf(entries, version)[f] == SourceFile(Sha(e.kind.content), e.executable, None)
    {
      var e :| e in entries && Names(e, f);
      assert Supplies(entries, e, f);
    }
  }

  /** What an accepted archive's inventory records: each regular file with its hash, each link with its text, in
      version 2 with the hash of the text, and nothing else. */
  lemma RecordedIsExact(entries: seq<Entry>, version: nat)
    requires Acceptable(entries, version)
    ensures var recorded := Resolved(FilesOf(entries, version), LinksOf(entries), version);
      && (forall e :: e in entries && e.kind.File? ==>
            e.path in recorded && recorded[e.path] == SourceFile(Sha(e.kind.content), e.executable, None))
      && (forall e :: e in entries && e.kind.Link? ==>
            && e.path in recorded && recorded[e.path].link == Some(e.kind.text) && recorded[e.path].executable == e.executable
            && (version == 2 ==> recorded[e.path].hash == ShaPath(e.kind.text)))
      && (forall f :: f in recorded ==> exists e :: e in entries && Names(e, f))
  {
    hide EntriesOk, FilesOf, LinksOf, Detects, LinkFreeDirectory, Linked;
    FilesAreExact(entries, version);
  }

  lemma EntriesNext(entries: seq<Entry>, i: nat)
    requires i < |entries|
    ensures EntriesOk(entries[..i + 1]) <==>
              EntriesOk(entries[..i]) && EntryOk(entries[i])
              && forall j :: 0 <= j < i ==> Components(entries[j].path) != Components(entries[i].path)
    ensures EntriesOk(entries) ==> EntriesOk(entries[..i + 1])
  {
    hide EntryOk, Components;
    var all := entries[..i + 1];
    assert forall j :: 0 <= j < i ==> all[j] == entries[..i][j] == entries[j];
    assert all[i] == entries[i];
  }

  lemma CollectNext(entries: seq<Entry>, i: nat, version: nat)
    requires i < |entries| && EntriesOk(entries[..i + 1])
    ensures EntriesOk(entries[..i]) && EntryOk(entries[i])
    ensures FilesOf(entries[..i + 1], version) == WithFile(FilesOf(entries[..i], version), entries[i], version)
    ensures LinksOf(entries[..i + 1]) == WithLink(LinksOf(entries[..i]), entries[i])
  {
    EntriesNext(entries, i);
    hide EntryOk, EntriesOk, Components, WithFile, WithLink;
    assert entries[..i + 1][..i] == entries[..i];
  }

  /** Read the entries one by one. */
  method Collect(entries: seq<Entry>, version: nat) returns (ok: bool, files: map<Raw, SourceFile>, links: LinkMap)
    ensures ok <==> EntriesOk(entries)
    ensures ok ==> files == FilesOf(entries, version) && links == LinksOf(entries)
  {
    hide EntriesOk, Components, Normalized, FilesOf, LinksOf, WithFile, Relative, Dotted;
    files, links := map[], map[];
    var seen: set<Parts> := {};
    NothingCollected(version);
    for i := 0 to |entries|
      invariant EntriesOk(entries[..i]) && files == FilesOf(entries[..i], version) && links == LinksOf(entries[..i])
      invariant forall p :: p in seen <==> exists j :: 0 <= j < i && Components(entries[j].path) == p
    {
      var e := entries[i];
      EntriesNext(entries, i);
      if !Relative(e.path) { return false, files, links; }
      RelativeHasComponents(e.path);
      if Components(e.path) in seen || e.kind.Unsupported? || (e.kind.Metadata? && !e.kind.supported) {
        return false, files, links;
      }
      seen := seen + {Components(e.path)};
      if e.kind.Link? {
        var target := NormalizeLink(e.path, e.kind.text);
        if target.None? { return false, files, links; }
        links := links[e.path := Text(target.value)];
      }
      CollectNext(entries, i, version);
      files := WithFile(files, e, version);
    }
    assert entries[..|entries|] == entries;
    ok := true;
  }

  lemma NothingCollected(version: nat)
    ensures EntriesOk([]) && FilesOf([], version) == map[] && LinksOf([]) == map[]
  {
  }

  /** The verified inventory: accepted exactly when acceptable, whatever order the links are visited in. */
  method Inventory(entries: seq<Entry>, version: nat) returns (r: Option<map<Raw, SourceFile>>)
    ensures r.Some? <==> Acceptable(entries, version)
    ensures r.Some? ==> r.value == Resolved(FilesOf(entries, version), LinksOf(entries), version)
  {
    hide EntriesOk, FilesOf, LinksOf, Detects, TargetOk, LinkFreeDirectory;
    var ok, files, links := Collect(entries, version);
    if !ok { return None; }
    LinksAreEntries(entries, version);
    if !(forall e | e in entries :: forall l | l in links :: !Detects(l, e.path)) { return None; }
    ok, files := ResolveAll(files, links, version);
    r := if ok then Some(files) else None;
  }

  method ResolveAll(files0: map<Raw, SourceFile>, links: LinkMap, version: nat) returns (ok: bool, files: map<Raw, SourceFile>)
    requires links.Keys <= files0.Keys
    ensures ok <==> forall l :: l in links ==> TargetOk(files0, links, version, links[l])
    ensures ok ==> (forall l :: l in links ==> Terminates(links, links[l])) && files == Resolved(files0, links, version)
  {
    hide Terminates, Final, LinkFreeDirectory;
    files := files0;
    var todo := links.Keys;
    while todo != {}
      invariant todo <= links.Keys && files.Keys == files0.Keys
      invariant forall l :: l in links && l !in todo ==> TargetOk(files0, links, version, links[l])
      invariant forall f :: f in files ==> files[f] == AsResolved(files0, links, version, links.Keys - todo, f)
      decreases todo
    {
      var name :| name in todo;
      var target := Follow(links, links[name]);
      if target.None? { return false, files; }
      var t := target.value;
      if t in files {
        if version == 1 {
          files := files[name := files[name].(hash := files[t].hash)];
        }
      } else if version != 2 || !LinkFreeDirectory(files, links, t) {
        KeysDecide(files, files0, links, t);
        return false, files;
      } else {
        KeysDecide(files, files0, links, t);
      }
      todo := todo - {name};
    }
    ok := true;
  }

  lemma KeysDecide(files: map<Raw, SourceFile>, files0: map<Raw, SourceFile>, links: LinkMap, t: Raw)
    requires files.Keys == files0.Keys
    ensures LinkFreeDirectory(files, links, t) == LinkFreeDirectory(files0, links, t)
  {
    assert forall f :: f in files <==> f in files0;
  }

  /** In an accepted archive following the recorded targets of a link ends after finitely many steps at the name of
      a regular file, or in version 2 at the path of a directory without links or of a regular file that is named
      untidily; in version 1 the link carries the file's content hash. */
  lemma TargetsEndAtContent(entries: seq<Entry>, version: nat, l: Raw)
    requires Acceptable(entries, version) && l in LinksOf(entries)
    ensures var files, links, t := FilesOf(entries, version), LinksOf(entries), Final(LinksOf(entries), LinksOf(entries)[l]);
            && t !in links
            && (t in files ==> exists e :: Supplies(entries, e, t) && files[t].hash == Sha(e.kind.content))
            && (t in files && version == 1 ==> l in files && Resolved(files, links, version)[l].hash == files[t].hash)
            && (t !in files ==> version == 2 && LinkFreeDirectory(files, links, t))
  {
    var links := LinksOf(entries);
    LinksAreEntries(entries, version);
    var n: nat :| EndsIn(links, links[l], n) && Final(links, links[l]) == After(links, links[l], n);
    AfterIsEnd(links, links[l], n);
  }

  lemma {:induction false} AfterIsEnd(links: LinkMap, x: Raw, n: nat)
    requires EndsIn(links, x, n)
    ensures After(links, x, n) !in links
    decreases n
  {
    if n > 0 { AfterIsEnd(links, links[x], n - 1); }
  }

  /** In an accepted archive nothing lies below a link whose name is tidy and starts with `.` just as the
      entry's does. */
  lemma NothingBelowLinks(entries: seq<Entry>, version: nat, l: Raw, e: Entry)
    requires Acceptable(entries, version) && l in LinksOf(entries) && e in entries
    requires IsTidy(l) && Dotted(l) == Dotted(e.path)
    ensures !Below(l, e.path)
  {
    LinksAreEntries(entries, version);
    var i :| 0 <= i < |entries| && entries[i] == e;
    assert EntryOk(entries[i]);
    var d :| d in entries && d.path == l;
    var j :| 0 <= j < |entries| && entries[j] == d;
    assert EntryOk(entries[j]);
    if Below(l, e.path) {
      ComponentsAreReal(l);
      DetectedIffTidy(l, e.path);
    }
  }

  lemma KeptStep(head: string, rest: Raw)
    ensures Kept([head] + rest) == (if head == "" || head == "." then [] else [head]) + Kept(rest)
  {
    assert ([head] + rest)[1..] == rest;
  }

  lemma EmptyKept()
    ensures Kept([]) == []
  {
  }

  lemma TooShort(link: Raw, entry: Raw)
    requires link != [""] && |Components(entry)| <= |link|
    ensures !Detects(link, entry)
  {
    hide Components;
  }
}
