/** Terminal audits of one owner. An audit certifies a pull request's feedback and the producers' evidence
    at one version, which is content plus a generation: content that changes moves the generation on, so a
    revoked audit does not become current again when the same bytes return. */
module Audits {
  import opened Effects

  type Url = string

  const MAX_GENERATION: nat := 0xFFFF_FFFF_FFFF_FFFF

  /** The nine feedback fields of a pull request; `rest` stands for those no branch looks at. */
  datatype Feedback = Feedback(state: string, head: Option<string>, rest: string)

  /** A journal record: feedback, everything else, and the generation the journal gave it. */
  datatype Pr = Pr(feedback: Feedback, other: string, generation: Option<nat>, failing: bool)

  datatype Observation = Observation(version: Digest, generation: nat)

  /** What an owner depends on: each producer and its evidence hash, if there is one. */
  type Evidence = map<nat, Option<string>>

  /** SHA-256 of canonical JSON, one constructor for each kind of hashed value; a missing generation is 0. */
  datatype Digest =
    | FeedbackDigest(feedback: Feedback, generation: Option<nat>)
    | DependencyDigest(producers: set<nat>, evidence: Evidence, generation: Option<nat>)
    | ObservationDigest(prs: seq<Pr>, evidence: Evidence, goal: string, producers: set<nat>, generation: Option<nat>)
    | VersionDigest(observation: Digest, progress: Option<Digest>)
    | CheckpointDigest(event: Digest, item: Item)
    | ReportDigest(report: Report)
    | Historical(text: string)

  /** A pull request in a worker's report. */
  datatype Item = Item(url: Url, head: Option<string>, auditComplete: bool, evidence: bool, disposition: bool)

  datatype Report = Report(status: string, event: Option<Digest>, items: seq<Item>)

  /** A pull request in a separate historical audit. */
  datatype Finding = Finding(url: Url, evidence: bool, feedback: Digest, dependencies: Option<Digest>)

  datatype Owner = Owner(prs: seq<Url>, dependencies: seq<nat>)

  function Tag(generation: nat): Option<nat> { if generation > 0 then Some(generation) else None }

  function FeedbackVersion(f: Feedback, generation: nat): Digest { FeedbackDigest(f, Tag(generation)) }

  /** The version a terminal audit must name. */
  function VersionOf(pr: Pr): Digest { FeedbackVersion(pr.feedback, pr.generation.GetOr(0)) }

  function Producers(o: Owner): set<nat> { set d | d in o.dependencies }

  /** The evidence of the declared producers. */
  function Declared(o: Owner, dependencies: map<nat, string>): Evidence {
    map d | d in o.dependencies :: if d in dependencies then Some(dependencies[d]) else None
  }

  predicate Blank(s: string) { forall c | c in s :: c in " \t\n\r" }

  predicate Complete(e: Evidence) { forall d | d in e :: e[d].Some? && !Blank(e[d].value) }

  predicate Closed(f: Feedback) { f.state == "MERGED" || f.state == "CLOSED" }

  predicate StatusOk(r: Report) { r.status in ["waiting", "ready_for_work", "merged", "closed", "complete"] }

  function Find(items: seq<Item>, url: Url): (r: Option<Item>)
    ensures r.Some? ==> exists i :: 0 <= i < |items| && items[i] == r.value && FirstOf(items, url, i)
    ensures r.None? ==> forall i :: i in items ==> i.url != url
  {
    if items == [] then None
    else if items[0].url == url then
      assert FirstOf(items, url, 0);
      Some(items[0])
    else
      var r := Find(items[1..], url);
      assert r.Some? ==> exists i :: 0 <= i < |items[1..]| && items[1..][i] == r.value && FirstOf(items[1..], url, i) && FirstOf(items, url, i + 1);
      r
  }

  /** Item `i` is the first for `url`. */
  predicate FirstOf(items: seq<Item>, url: Url, i: int) {
    0 <= i < |items| && items[i].url == url && forall j | 0 <= j < i :: items[j].url != url
  }

  predicate Distinct(urls: seq<Url>) { forall i, j | 0 <= i < j < |urls| :: urls[i] != urls[j] }

  /** A record the journal has not seen yet. */
  const UNSEEN: Pr := Pr(Feedback("", None, ""), "", None, false)

  function RecordOf(prs: map<Url, Pr>, u: Url): Pr { if u in prs then prs[u] else UNSEEN }

  /** The generation after one look: content that differs from what was last observed, or from an imported
      audit, moves it on. */
  function NextGeneration(prior: Option<Observation>, audit: Option<Digest>, raw: Digest): nat {
    var last := if prior.Some? then Some(prior.value.version) else audit;
    (if prior.Some? then prior.value.generation else 0) + (if last.Some? && last.value != raw then 1 else 0)
  }

  function Lookup<K, V>(m: map<K, V>, k: K): Option<V> { if k in m then Some(m[k]) else None }

  /** An audit that was recorded. */
  datatype Certificate = Certificate(url: Url, feedback: Feedback, generation: nat)

  /** Feedback audits: none is of a later generation than the observation, and one of its generation is of
      its content. Before the first observation only an imported audit exists. */
  ghost predicate CertificateOk(c: Certificate, observations: map<Url, Observation>, audited: map<Url, Digest>) {
    if c.url in observations then
      && c.generation <= observations[c.url].generation
      && (c.generation == observations[c.url].generation ==> observations[c.url].version == FeedbackVersion(c.feedback, 0))
    else
      c.generation == 0 && c.url in audited && audited[c.url] == FeedbackVersion(c.feedback, 0)
  }

  ghost predicate Backed(certified: set<Certificate>, u: Url, d: Digest) {
    d.FeedbackDigest? ==> exists c :: c in certified && c.url == u && d == FeedbackVersion(c.feedback, c.generation)
  }

  ghost predicate FeedbackOk(
    certified: set<Certificate>, revoked: set<Certificate>, observations: map<Url, Observation>, audited: map<Url, Digest>)
  {
    && (forall c :: c in certified ==> CertificateOk(c, observations, audited))
    && (forall c :: c in revoked ==> c in certified && c.url in observations && c.generation < observations[c.url].generation)
    && (forall u :: u in audited ==> Backed(certified, u, audited[u]))
  }

  /** Dependency audits: while evidence is missing none is of this generation, and none is kept. */
  ghost predicate DependenciesOk(
    certified: set<nat>, revoked: set<nat>, generation: nat, incomplete: bool, audited: map<Url, Digest>)
  {
    && (forall g :: g in certified ==> g <= generation && (incomplete ==> g < generation))
    && (forall g :: g in revoked ==> g in certified && g < generation)
    && (incomplete ==> audited == map[])
    && (forall u :: u in audited ==> audited[u].DependencyDigest? ==> exists g :: g in certified && audited[u].generation == Tag(g))
  }

  /** The observation of `u` after a look at its record. */
  function Observed(prs: map<Url, Pr>, observations: map<Url, Observation>, audited: map<Url, Digest>, u: Url): Observation {
    var raw := FeedbackVersion(RecordOf(prs, u).feedback, 0);
    Observation(raw, NextGeneration(Lookup(observations, u), Lookup(audited, u), raw))
  }

  /** One more look never lets an old certificate match, and the contradicted ones fall behind. */
  lemma LookKeeps(c: Certificate, prs: map<Url, Pr>, observations: map<Url, Observation>, audited: map<Url, Digest>)
    requires CertificateOk(c, observations, audited)
    ensures var o := Observed(prs, observations, audited, c.url);
            && (c.url in observations ==> observations[c.url].generation <= o.generation)
            && c.generation <= o.generation
            && (c.generation == o.generation ==> o.version == FeedbackVersion(c.feedback, 0))
            && (RecordOf(prs, c.url).feedback != c.feedback ==> c.generation < o.generation)
  {
  }

  /** The record after a look: the journal's generation replaces whatever a collector brought. */
  function Stamped(prs: map<Url, Pr>, observations: map<Url, Observation>, audited: map<Url, Digest>, u: Url): Pr {
    RecordOf(prs, u).(generation := Tag(Observed(prs, observations, audited, u).generation))
  }

  /** The records and observations after a look at `seen`. */
  ghost predicate Watched(
    seen: set<Url>, prs: map<Url, Pr>, observations: map<Url, Observation>, audited: map<Url, Digest>,
    newPrs: map<Url, Pr>, newObservations: map<Url, Observation>)
  {
    && newObservations == observations + Looks(seen, prs, observations, audited)
    && newPrs == prs + Stamps(seen, prs, observations, audited)
  }

  ghost function Looks(seen: set<Url>, prs: map<Url, Pr>, observations: map<Url, Observation>, audited: map<Url, Digest>): map<Url, Observation> {
    map u | u in seen :: Observed(prs, observations, audited, u)
  }

  ghost function Stamps(seen: set<Url>, prs: map<Url, Pr>, observations: map<Url, Observation>, audited: map<Url, Digest>): map<Url, Pr> {
    map u | u in seen :: Stamped(prs, observations, audited, u)
  }

  lemma LooksNext(seen: set<Url>, prs: map<Url, Pr>, observations: map<Url, Observation>, audited: map<Url, Digest>, u: Url)
    ensures Looks(seen + {u}, prs, observations, audited)
            == Looks(seen, prs, observations, audited)[u := Observed(prs, observations, audited, u)]
    ensures Stamps(seen + {u}, prs, observations, audited)
            == Stamps(seen, prs, observations, audited)[u := Stamped(prs, observations, audited, u)]
  {
    hide Observed, Stamped;
  }

  lemma WatchedNext(
    seen: set<Url>, prs: map<Url, Pr>, observations: map<Url, Observation>, audited: map<Url, Digest>,
    newPrs: map<Url, Pr>, newObservations: map<Url, Observation>, u: Url)
    requires Watched(seen, prs, observations, audited, newPrs, newObservations)
    ensures Watched(seen + {u}, prs, observations, audited, newPrs[u := Stamped(prs, observations, audited, u)],
                    newObservations[u := Observed(prs, observations, audited, u)])
  {
    hide Observed, Stamped, Looks, Stamps;
    LooksNext(seen, prs, observations, audited, u);
  }

  lemma NothingWatched(prs: map<Url, Pr>, observations: map<Url, Observation>, audited: map<Url, Digest>)
    ensures Watched({}, prs, observations, audited, prs, observations)
  {
    hide Observed, Stamped;
  }

  /** The record shows what was observed. */
  predicate Current(pr: Pr, o: Observation) {
    o.version == FeedbackVersion(pr.feedback, 0) && pr.generation == Tag(o.generation)
  }

  lemma LooksAreCurrent(
    urls: set<Url>, prs: map<Url, Pr>, observations: map<Url, Observation>, audited: map<Url, Digest>,
    newPrs: map<Url, Pr>, newObservations: map<Url, Observation>)
    requires Watched(urls, prs, observations, audited, newPrs, newObservations)
    ensures forall u :: u in urls ==> u in newPrs && u in newObservations && Current(newPrs[u], newObservations[u])
  {
  }

  /** The heart of it: equal bytes under a later generation are a different version. */
  lemma RevokedIsNeverCurrent(
    c: Certificate, pr: Pr, observations: map<Url, Observation>, audited: map<Url, Digest>, certified: set<Certificate>, revoked: set<Certificate>)
    requires FeedbackOk(certified, revoked, observations, audited) && c in revoked
    requires c.url in observations && Current(pr, observations[c.url])
    ensures VersionOf(pr) != FeedbackVersion(c.feedback, c.generation)
  {
  }

  /** Certificates contradicted by the records. */
  ghost function Contradicted(certified: set<Certificate>, urls: set<Url>, prs: map<Url, Pr>): set<Certificate> {
    set c | c in certified && c.url in urls && RecordOf(prs, c.url).feedback != c.feedback
  }

  lemma LooksKeep(
    urls: set<Url>, prs: map<Url, Pr>, observations: map<Url, Observation>, audited: map<Url, Digest>,
    newPrs: map<Url, Pr>, newObservations: map<Url, Observation>, certified: set<Certificate>, revoked: set<Certificate>)
    requires Watched(urls, prs, observations, audited, newPrs, newObservations)
    requires FeedbackOk(certified, revoked, observations, audited)
    ensures FeedbackOk(certified, revoked + Contradicted(certified, urls, prs), newObservations, audited)
  {
    hide Observed, RecordOf, Backed, Stamped;
    forall c | c in certified
      ensures CertificateOk(c, newObservations, audited)
      ensures c in revoked + Contradicted(certified, urls, prs) ==>
                c.url in newObservations && c.generation < newObservations[c.url].generation
    {
      LookKeeps(c, prs, observations, audited);
    }
  }

  lemma RecordKeeps(c: Certificate, observations: map<Url, Observation>, audited: map<Url, Digest>, certified: set<Certificate>, revoked: set<Certificate>)
    requires FeedbackOk(certified, revoked, observations, audited)
    requires c.url in observations && observations[c.url] == Observation(FeedbackVersion(c.feedback, 0), c.generation)
    ensures FeedbackOk(certified + {c}, revoked, observations, audited[c.url := FeedbackVersion(c.feedback, c.generation)])
  {
    hide FeedbackVersion;
    var after := audited[c.url := FeedbackVersion(c.feedback, c.generation)];
    forall d | d in certified + {c} ensures CertificateOk(d, observations, after) {
      assert d in certified ==> CertificateOk(d, observations, audited);
    }
    forall u | u in after ensures Backed(certified + {c}, u, after[u]) {
      if u == c.url {
        assert c in certified + {c};
      } else {
        assert Backed(certified, u, audited[u]);
      }
    }
  }

  lemma RecordKeepsDependencies(u: Url, d: Digest, certified: set<nat>, revoked: set<nat>, generation: nat, audited: map<Url, Digest>)
    requires DependenciesOk(certified, revoked, generation, false, audited)
    requires d.DependencyDigest? && d.generation == Tag(generation)
    ensures DependenciesOk(certified + {generation}, revoked, generation, false, audited[u := d])
  {
    var after := audited[u := d];
    forall w | w in after && after[w].DependencyDigest? ensures exists g :: g in certified + {generation} && after[w].generation == Tag(g) {
      if w == u {
        assert generation in certified + {generation};
      } else {
        var g :| g in certified && audited[w].generation == Tag(g);
        assert g in certified + {generation};
      }
    }
  }

  /** New certificates are of what the journal holds. */
  ghost predicate NewAreCurrent(
    before: set<Certificate>, after: set<Certificate>, urls: seq<Url>, prs: map<Url, Pr>, observations: map<Url, Observation>)
  {
    && before <= after
    && forall c :: c in after && c !in before ==>
         && c.url in urls && c.url in prs && c.url in observations && c.feedback == prs[c.url].feedback
         && c.generation == observations[c.url].generation
  }

  lemma NothingNew(a: set<Certificate>, urls: seq<Url>, prs: map<Url, Pr>, observations: map<Url, Observation>)
    ensures NewAreCurrent(a, a, urls, prs, observations)
  {
  }

  lemma NewThrough(
    a: set<Certificate>, b: set<Certificate>, c: set<Certificate>, urls: seq<Url>, prs: map<Url, Pr>, observations: map<Url, Observation>)
    requires NewAreCurrent(a, b, urls, prs, observations) && NewAreCurrent(b, c, urls, prs, observations)
    ensures NewAreCurrent(a, c, urls, prs, observations)
  {
  }

  /** The feedback audits, the dependency audits, and every certificate so far. */
  datatype Register = Register(feedback: map<Url, Digest>, dependencies: map<Url, Digest>, certified: set<Certificate>)

  /** What an audit of `u` certifies now. */
  ghost function Present(prs: map<Url, Pr>, u: Url): Certificate {
    Certificate(u, RecordOf(prs, u).feedback, RecordOf(prs, u).generation.GetOr(0))
  }

  ghost function VersionsOf(us: set<Url>, prs: map<Url, Pr>): map<Url, Digest> { map u | u in us :: VersionOf(RecordOf(prs, u)) }

  ghost function PresentOf(us: set<Url>, prs: map<Url, Pr>): set<Certificate> { set u | u in us :: Present(prs, u) }

  ghost function SameFor(us: set<Url>, d: Digest): map<Url, Digest> { map u | u in us :: d }

  /** The register after audits of `us`, and of nothing else. */
  ghost function Entered(r: Register, us: set<Url>, prs: map<Url, Pr>, dependencies: Digest): Register {
    Register(r.feedback + VersionsOf(us, prs), r.dependencies + SameFor(us, dependencies), r.certified + PresentOf(us, prs))
  }

  lemma EnteredNone(r: Register, prs: map<Url, Pr>, dependencies: Digest)
    ensures Entered(r, {}, prs, dependencies) == r
  {
  }

  lemma EnteredTwice(r: Register, a: set<Url>, b: set<Url>, prs: map<Url, Pr>, dependencies: Digest)
    ensures Entered(Entered(r, a, prs, dependencies), b, prs, dependencies) == Entered(r, a + b, prs, dependencies)
  {
    hide VersionsOf, PresentOf;
    VersionsJoin(a, b, prs);
    PresentJoin(a, b, prs);
    assert r.feedback + VersionsOf(a, prs) + VersionsOf(b, prs) == r.feedback + (VersionsOf(a, prs) + VersionsOf(b, prs));
    assert SameFor(a, dependencies) + SameFor(b, dependencies) == SameFor(a + b, dependencies);
    assert r.dependencies + SameFor(a, dependencies) + SameFor(b, dependencies)
           == r.dependencies + (SameFor(a, dependencies) + SameFor(b, dependencies));
    assert r.certified + PresentOf(a, prs) + PresentOf(b, prs) == r.certified + (PresentOf(a, prs) + PresentOf(b, prs));
  }

  lemma EnteredOne(r: Register, u: Url, prs: map<Url, Pr>, dependencies: Digest)
    ensures Entered(r, {u}, prs, dependencies)
            == Register(r.feedback[u := VersionOf(RecordOf(prs, u))], r.dependencies[u := dependencies], r.certified + {Present(prs, u)})
  {
    hide VersionOf, RecordOf, Present, VersionsOf, PresentOf;
    VersionsOne(u, prs);
    PresentOne(u, prs);
    assert SameFor({u}, dependencies) == map[u := dependencies];
  }

  lemma VersionsOne(u: Url, prs: map<Url, Pr>)
    ensures VersionsOf({u}, prs) == map[u := VersionOf(RecordOf(prs, u))]
  {
    hide VersionOf, RecordOf;
  }

  lemma PresentOne(u: Url, prs: map<Url, Pr>)
    ensures PresentOf({u}, prs) == {Present(prs, u)}
  {
    hide Present;
  }

  lemma VersionsJoin(a: set<Url>, b: set<Url>, prs: map<Url, Pr>)
    ensures VersionsOf(a + b, prs) == VersionsOf(a, prs) + VersionsOf(b, prs)
  {
    hide VersionOf, RecordOf;
  }

  lemma PresentJoin(a: set<Url>, b: set<Url>, prs: map<Url, Pr>)
    ensures PresentOf(a + b, prs) == PresentOf(a, prs) + PresentOf(b, prs)
  {
    hide Present;
  }

  /** A finding of exactly the certified version, with evidence and, where there are producers, of their version. */
  ghost predicate ByFinding(c: Certificate, o: Owner, findings: seq<Finding>, dependencies: Digest) {
    exists f :: f in findings && FindingAudits(f, c, o, dependencies)
  }

  ghost predicate FindingAudits(f: Finding, c: Certificate, o: Owner, dependencies: Digest) {
    && f.url == c.url && f.evidence && f.feedback == FeedbackVersion(c.feedback, c.generation)
    && (o.dependencies != [] ==> f.dependencies == Some(dependencies))
  }

  /** An item that audited the head certified, of a pull request that merged or was closed with a disposition. */
  ghost predicate ItemAudits(item: Item, c: Certificate) {
    && item.auditComplete && item.evidence && c.feedback.head.Some? && item.head == c.feedback.head
    && (c.feedback.state == "MERGED" || (c.feedback.state == "CLOSED" && item.disposition))
  }

  ghost predicate ByItem(c: Certificate, report: Report) {
    exists i :: FirstOf(report.items, c.url, i) && ItemAudits(report.items[i], c)
  }

  /** The first item for the certificate's pull request audits it, at a checkpoint not recorded before. */
  ghost predicate ByNewItem(c: Certificate, report: Report, checkpoints: map<Url, Digest>) {
    exists i :: FirstOf(report.items, c.url, i) && ItemAudits(report.items[i], c) && report.event.Some?
                && Lookup(checkpoints, c.url) != Some(CheckpointDigest(report.event.value, report.items[i]))
  }

  /** The pull requests among `urls` that the findings audit. */
  ghost function FoundAmong(urls: seq<Url>, o: Owner, prs: map<Url, Pr>, findings: seq<Finding>, dependencies: Digest): set<Url> {
    set u | u in urls && ByFinding(Present(prs, u), o, findings, dependencies)
  }

  /** The pull requests among `urls` that the report audits at a new checkpoint. */
  ghost function ReportedAmong(urls: seq<Url>, prs: map<Url, Pr>, report: Report, checkpoints: map<Url, Digest>): set<Url> {
    set u | u in urls && ByNewItem(Present(prs, u), report, checkpoints)
  }

  /** One more finding. */
  lemma FoundNext(urls: seq<Url>, o: Owner, prs: map<Url, Pr>, findings: seq<Finding>, i: nat, dependencies: Digest)
    requires i < |findings|
    ensures FoundAmong(urls, o, prs, findings[..i + 1], dependencies)
            == FoundAmong(urls, o, prs, findings[..i], dependencies) + FoundAmong(urls, o, prs, [findings[i]], dependencies)
  {
    hide FindingAudits, Present;
    assert findings[..i + 1] == findings[..i] + [findings[i]];
    forall u | u in urls
      ensures ByFinding(Present(prs, u), o, findings[..i + 1], dependencies)
              <==> ByFinding(Present(prs, u), o, findings[..i], dependencies) || ByFinding(Present(prs, u), o, [findings[i]], dependencies)
    {
      var c := Present(prs, u);
      if f :| f in findings[..i + 1] && FindingAudits(f, c, o, dependencies) {
        assert f in findings[..i] || f in [findings[i]];
      }
    }
  }

  /** One finding is about one pull request. */
  lemma FoundOne(urls: seq<Url>, o: Owner, prs: map<Url, Pr>, f: Finding, dependencies: Digest)
    ensures FoundAmong(urls, o, prs, [f], dependencies)
            == if f.url in urls && FindingAudits(f, Present(prs, f.url), o, dependencies) then {f.url} else {}
  {
    forall u | u in urls
      ensures ByFinding(Present(prs, u), o, [f], dependencies) <==> FindingAudits(f, Present(prs, u), o, dependencies)
    {
      assert f in [f];
    }
  }

  /** One more assignment of a report. */
  lemma ReportedNext(urls: seq<Url>, prs: map<Url, Pr>, report: Report, checkpoints: map<Url, Digest>, i: nat)
    requires i < |urls|
    ensures ReportedAmong(urls[..i + 1], prs, report, checkpoints)
            == ReportedAmong(urls[..i], prs, report, checkpoints) + ReportedAmong([urls[i]], prs, report, checkpoints)
  {
    hide ByNewItem, Present;
    assert urls[..i + 1] == urls[..i] + [urls[i]];
  }

  lemma NoneReported(prs: map<Url, Pr>, report: Report, checkpoints: map<Url, Digest>)
    ensures ReportedAmong([], prs, report, checkpoints) == {}
  {
  }

  lemma NoneFound(urls: seq<Url>, o: Owner, prs: map<Url, Pr>, dependencies: Digest)
    ensures FoundAmong(urls, o, prs, [], dependencies) == {}
  {
  }

  /** What the report says of one assignment is in the first item for it, if there is one. */
  lemma ReportedOne(u: Url, prs: map<Url, Pr>, report: Report, checkpoints: map<Url, Digest>)
    requires report.event.Some?
    ensures var found := Find(report.items, u);
            ReportedAmong([u], prs, report, checkpoints)
            == if found.Some? && ItemAudits(found.value, Present(prs, u))
                  && Lookup(checkpoints, u) != Some(CheckpointDigest(report.event.value, found.value)) then {u} else {}
  {
    hide ItemAudits, Find, FirstOf;
    var found, c := Find(report.items, u), Present(prs, u);
    if found.Some? {
      var i :| 0 <= i < |report.items| && report.items[i] == found.value && FirstOf(report.items, u, i);
      forall k | FirstOf(report.items, u, k) ensures k == i {
        FirstIsOne(report.items, u, i, k);
      }
    } else if ByNewItem(c, report, checkpoints) {
      var i :| FirstOf(report.items, u, i);
      FirstIsThere(report.items, u, i);
    }
  }

  lemma FirstIsOne(items: seq<Item>, url: Url, i: int, k: int)
    requires FirstOf(items, url, i) && FirstOf(items, url, k)
    ensures i == k
  {
  }

  lemma FirstIsThere(items: seq<Item>, url: Url, i: int)
    requires FirstOf(items, url, i)
    ensures Find(items, url).Some?
  {
    assert items[i] in items;
  }

  /** The report is about the event and the observation that were delivered. */
  ghost predicate Bound(report: Option<Report>, delivered: Option<Digest>, deliveredObservation: Option<Digest>, observation: Digest) {
    report.Some? && report.value.event.Some? && report.value.event == delivered && deliveredObservation == Some(observation)
  }

  /** What the packet holds of its worker: the report adopted last, whether it waits, and its progress. */
  datatype Worker = Worker(status: Option<Report>, waiting: bool, progress: Option<Digest>)

  /** A bound report is adopted whole; it is progress only while the evidence is complete. */
  ghost function Adopted(w: Worker, report: Option<Report>, bound: bool, complete: bool): Worker {
    if !bound || report.None? then w
    else Worker(report, report.value.status == "waiting",
                if complete && report.value.status == "ready_for_work" then Some(ReportDigest(report.value)) else w.progress)
  }

  /** The pull requests that a report bound to the delivery audits at a new checkpoint. */
  ghost function Reported(o: Owner, prs: map<Url, Pr>, report: Option<Report>, bound: bool, checkpoints: map<Url, Digest>): set<Url> {
    if bound && report.Some? then ReportedAmong(o.prs, prs, report.value, checkpoints) else {}
  }

  /** What stands behind each new certificate: the report bound to the delivery, or a finding. */
  ghost predicate NewAreBacked(
    before: set<Certificate>, after: set<Certificate>, o: Owner, report: Option<Report>, bound: bool, findings: seq<Finding>, dependencies: Digest)
  {
    forall c :: c in after && c !in before ==>
      (bound && report.Some? && ByItem(c, report.value)) || ByFinding(c, o, findings, dependencies)
  }

  /** Only what was entered is new in the register. */
  lemma EnteredIsBacked(
    r: Register, o: Owner, prs: map<Url, Pr>, dependencies: Digest, report: Option<Report>, bound: bool,
    checkpoints: map<Url, Digest>, findings: seq<Finding>)
    ensures var us := Reported(o, prs, report, bound, checkpoints) + FoundAmong(o.prs, o, prs, findings, dependencies);
            NewAreBacked(r.certified, Entered(r, us, prs, dependencies).certified, o, report, bound, findings, dependencies)
  {
    hide ItemAudits, ByFinding;
  }

  /** The register that new audits are entered in: missing evidence has dropped every dependency audit. */
  ghost function Retained(r: Register, complete: bool): Register { if complete then r else r.(dependencies := map[]) }

  /** A waiting worker owes a report before any other is adopted. */
  ghost function Owing(w: Worker): Worker { w.(waiting := w.waiting || (w.status.Some? && w.status.value.status == "waiting")) }

  /** What a refresh certifies: while the evidence is complete, what the report bound to the delivery audits at a
      new checkpoint and what the findings audit; nothing otherwise. */
  ghost function NewlyAudited(
    o: Owner, prs: map<Url, Pr>, complete: bool, report: Option<Report>, bound: bool, checkpoints: map<Url, Digest>,
    findings: seq<Finding>, dependencies: Digest): set<Url>
  {
    if complete then Reported(o, prs, report, bound, checkpoints) + FoundAmong(o.prs, o, prs, findings, dependencies) else {}
  }

  /** A refresh enters exactly these audits, each certificate it adds has something behind it, and of the report it
      adopts nothing that is not bound to the delivery. */
  ghost predicate Assessed(
    before: Register, after: Register, was: Worker, now: Worker, o: Owner, prs: map<Url, Pr>, complete: bool, report: Option<Report>,
    bound: bool, checkpoints: map<Url, Digest>, findings: seq<Finding>, dependencies: Digest)
  {
    && after == Entered(Retained(before, complete), NewlyAudited(o, prs, complete, report, bound, checkpoints, findings, dependencies),
                        prs, dependencies)
    && NewAreBacked(before.certified, after.certified, o, report, bound, findings, dependencies)
    && now == Adopted(Owing(was), report, bound, complete)
  }

  lemma AssessedWhole(
    before: Register, after: Register, was: Worker, now: Worker, o: Owner, prs: map<Url, Pr>, complete: bool, report: Option<Report>,
    bound: bool, checkpoints: map<Url, Digest>, findings: seq<Finding>, dependencies: Digest)
    requires after == Entered(Retained(before, complete), NewlyAudited(o, prs, complete, report, bound, checkpoints, findings, dependencies),
                              prs, dependencies)
    requires NewAreBacked(before.certified, after.certified, o, report, bound, findings, dependencies)
    requires now == Adopted(Owing(was), report, bound, complete)
    ensures Assessed(before, after, was, now, o, prs, complete, report, bound, checkpoints, findings, dependencies)
  {
  }

  lemma SameCertificates(r: Register, complete: bool)
    ensures Retained(r, complete).certified == r.certified
  {
  }

  lemma NewlyMeans(
    o: Owner, prs: map<Url, Pr>, report: Option<Report>, bound: bool, checkpoints: map<Url, Digest>, findings: seq<Finding>, d: Digest)
    ensures NewlyAudited(o, prs, true, report, bound, checkpoints, findings, d)
            == Reported(o, prs, report, bound, checkpoints) + FoundAmong(o.prs, o, prs, findings, d)
    ensures NewlyAudited(o, prs, false, report, bound, checkpoints, findings, d) == {}
  {
  }

  lemma NoneIsBacked(a: set<Certificate>, o: Owner, report: Option<Report>, bound: bool, findings: seq<Finding>, dependencies: Digest)
    ensures NewAreBacked(a, a, o, report, bound, findings, dependencies)
  {
  }

  lemma NoReport(o: Owner, prs: map<Url, Pr>, report: Option<Report>, bound: bool, complete: bool, checkpoints: map<Url, Digest>, w: Worker)
    requires !bound || report.None?
    ensures Reported(o, prs, report, bound, checkpoints) == {} && Adopted(w, report, bound, complete) == w
  {
  }

  function RecordsOf(prs: map<Url, Pr>, urls: seq<Url>): seq<Pr> {
    seq(|urls|, i requires 0 <= i < |urls| => RecordOf(prs, urls[i]))
  }

  function DependencyVersionOf(o: Owner, e: Evidence, generation: nat): (d: Digest)
    ensures d.DependencyDigest? && d.generation == Tag(generation)
  {
    DependencyDigest(Producers(o), e, Tag(generation))
  }

  function ObservationOf(prs: map<Url, Pr>, o: Owner, e: Evidence, goal: string, generation: nat): Digest {
    ObservationDigest(RecordsOf(prs, o.prs), e, goal, Producers(o), Tag(generation))
  }

  /** The audits of a packet's journal entry as persisted, and the rest of it. */
  datatype Entry = Entry(
    prs: map<Url, Pr>, observations: map<Url, Observation>, auditedFeedback: map<Url, Digest>,
    auditedDependencies: map<Url, Digest>, dependencyGeneration: nat, evidenceIncomplete: bool)

  datatype Standing = Standing(
    auditedCheckpoints: map<Url, Digest>, evidence: Evidence, dependencyVersion: Option<Digest>,
    observationVersion: Option<Digest>, version: Option<Digest>, deliveredVersion: Option<Digest>,
    deliveredObservation: Option<Digest>, progressVersion: Option<Digest>, deliveredProgress: Option<Digest>,
    workerStatus: Option<Report>, waitingReportPending: bool, terminal: bool)

  class Packet {
    var prs: map<Url, Pr>
    var observations: map<Url, Observation>
    var auditedFeedback: map<Url, Digest>
    var auditedCheckpoints: map<Url, Digest>
    var auditedDependencies: map<Url, Digest>
    var dependencyGeneration: nat
    var evidenceIncomplete: bool
    var evidence: Evidence
    var dependencyVersion: Option<Digest>
    var observationVersion: Option<Digest>
    var version: Option<Digest>
    var deliveredVersion: Option<Digest>
    var deliveredObservation: Option<Digest>
    var progressVersion: Option<Digest>
    var deliveredProgress: Option<Digest>
    var workerStatus: Option<Report>
    var waitingReportPending: bool
    var terminal: bool
    /** Every feedback audit ever recorded, and those whose content was since seen to differ. */
    ghost var certified: set<Certificate>
    ghost var revoked: set<Certificate>
    /** Every dependency audit ever recorded, by generation, and those that missing evidence revoked. */
    ghost var certifiedDependencies: set<nat>
    ghost var revokedDependencies: set<nat>
    /** The entry a restart finds, and what was recorded and revoked when it was persisted. */
    var kept: Entry
    var keptStanding: Standing
    ghost var keptCertified: set<Certificate>
    ghost var keptRevoked: set<Certificate>
    ghost var keptCertifiedDependencies: set<nat>
    ghost var keptRevokedDependencies: set<nat>

    /** An imported journal has no observations yet; its audits hash plain feedback. */
    constructor (prs: map<Url, Pr>, audited: map<Url, Digest>, audits: set<Certificate>)
      requires forall u :: u in audited && audited[u].FeedbackDigest? ==>
                 audited[u].generation.None? && Certificate(u, audited[u].feedback, 0) in audits
      requires forall c :: c in audits ==> c.generation == 0 && c.url in audited && audited[c.url] == FeedbackVersion(c.feedback, 0)
      ensures Inv() && Kept() && this.prs == prs && auditedFeedback == audited && certified == audits && revoked == {}
    {
      this.prs, auditedFeedback, certified := prs, audited, audits;
      observations, auditedCheckpoints, auditedDependencies, evidence := map[], map[], map[], map[];
      dependencyGeneration, evidenceIncomplete, waitingReportPending, terminal := 0, false, false, false;
      dependencyVersion, observationVersion, version := None, None, None;
      deliveredVersion, deliveredObservation, progressVersion, deliveredProgress := None, None, None, None;
      workerStatus := None;
      revoked, certifiedDependencies, revokedDependencies := {}, {}, {};
      kept := Entry(prs, map[], audited, map[], 0, false);
      keptStanding := Standing(map[], map[], None, None, None, None, None, None, None, None, false, false);
      keptCertified, keptRevoked, keptCertifiedDependencies, keptRevokedDependencies := audits, {}, {}, {};
    }

    /** The persisted entry keeps the audit invariant, and whatever was revoked when it was persisted still is. */
    ghost predicate Kept()
      reads this`kept, this`keptCertified, this`keptRevoked, this`keptCertifiedDependencies, this`keptRevokedDependencies
      reads this`revoked, this`revokedDependencies
    {
      && FeedbackOk(keptCertified, keptRevoked, kept.observations, kept.auditedFeedback)
      && DependenciesOk(keptCertifiedDependencies, keptRevokedDependencies, kept.dependencyGeneration, kept.evidenceIncomplete,
                        kept.auditedDependencies)
      && keptRevoked <= revoked && keptRevokedDependencies <= revokedDependencies
    }

    function Now(): Entry
      reads this`prs, this`observations, this`auditedFeedback, this`auditedDependencies, this`dependencyGeneration
      reads this`evidenceIncomplete
    {
      Entry(prs, observations, auditedFeedback, auditedDependencies, dependencyGeneration, evidenceIncomplete)
    }

    function StandingNow(): Standing
      reads this`auditedCheckpoints, this`evidence, this`dependencyVersion, this`observationVersion, this`version
      reads this`deliveredVersion, this`deliveredObservation, this`progressVersion, this`deliveredProgress
      reads this`workerStatus, this`waitingReportPending, this`terminal
    {
      Standing(auditedCheckpoints, evidence, dependencyVersion, observationVersion, version, deliveredVersion,
               deliveredObservation, progressVersion, deliveredProgress, workerStatus, waitingReportPending, terminal)
    }

    /** Persist the entry by replacing the journal; a failure may leave either. */
    method Persist() returns (e: Exit)
      requires Inv() && Kept()
      modifies this`kept, this`keptStanding
      modifies this`keptCertified, this`keptRevoked, this`keptCertifiedDependencies, this`keptRevokedDependencies
      ensures Inv() && Kept() && old(keptRevoked) <= keptRevoked && old(keptRevokedDependencies) <= keptRevokedDependencies
      ensures e.Fine? ==> kept == Now() && keptStanding == StandingNow()
      ensures e.Fine? ==> keptRevoked == revoked && keptRevokedDependencies == revokedDependencies && keptCertified == certified
    {
      hide *;
      e := Attempt();
      var replaced := *;
      KeptParts();
      if e.Fine? || replaced {
        SaveStanding();
        SaveAudits();
      }
    }

    method SaveStanding()
      modifies this`keptStanding
      ensures keptStanding == StandingNow()
    {
      hide *;
      keptStanding := StandingNow();
    }

    method SaveAudits()
      requires Inv()
      modifies this`kept, this`keptCertified, this`keptRevoked, this`keptCertifiedDependencies, this`keptRevokedDependencies
      ensures Kept() && kept == Now() && keptCertified == certified && keptRevoked == revoked
      ensures keptRevokedDependencies == revokedDependencies
    {
      hide *;
      kept := Now();
      keptCertified, keptRevoked := certified, revoked;
      keptCertifiedDependencies, keptRevokedDependencies := certifiedDependencies, revokedDependencies;
      NowIsSound(kept);
      KeptWhole();
    }

    lemma NowIsSound(now: Entry)
      requires Inv() && now == Now()
      ensures FeedbackOk(certified, revoked, now.observations, now.auditedFeedback)
      ensures DependenciesOk(certifiedDependencies, revokedDependencies, now.dependencyGeneration, now.evidenceIncomplete,
                             now.auditedDependencies)
    {
      hide FeedbackOk, DependenciesOk;
    }

    /** After a crash the persisted entry is all there is: whatever was not persisted was never recorded or revoked. */
    method Restart()
      requires Kept()
      modifies this
      ensures Inv() && Kept() && Now() == kept == old(kept) && StandingNow() == keptStanding == old(keptStanding)
      ensures revoked == keptRevoked == old(keptRevoked) && certified == old(keptCertified)
      ensures revokedDependencies == keptRevokedDependencies == old(keptRevokedDependencies)
    {
      hide *;
      KeptParts();
      RestartStanding();
      RestartAudits();
      RestartRecords();
      KeptWhole();
      KeptIsSound();
    }

    ghost method RestartRecords()
      modifies this`certified, this`revoked, this`certifiedDependencies, this`revokedDependencies
      ensures certified == keptCertified && revoked == keptRevoked
      ensures certifiedDependencies == keptCertifiedDependencies && revokedDependencies == keptRevokedDependencies
    {
      certified, revoked := keptCertified, keptRevoked;
      certifiedDependencies, revokedDependencies := keptCertifiedDependencies, keptRevokedDependencies;
    }

    lemma KeptIsSound()
      requires Kept() && Now() == kept && certified == keptCertified && revoked == keptRevoked
      requires certifiedDependencies == keptCertifiedDependencies && revokedDependencies == keptRevokedDependencies
      ensures Inv()
    {
      hide FeedbackOk, DependenciesOk;
    }

    method RestartStanding()
      modifies this`auditedCheckpoints, this`evidence, this`dependencyVersion, this`observationVersion, this`version
      modifies this`deliveredVersion, this`deliveredObservation, this`progressVersion, this`deliveredProgress
      modifies this`workerStatus, this`waitingReportPending, this`terminal
      ensures StandingNow() == keptStanding
    {
      RestartVersions(keptStanding);
      RestartReports(keptStanding);
    }

    method RestartVersions(s: Standing)
      modifies this`auditedCheckpoints, this`evidence, this`dependencyVersion, this`observationVersion, this`version
      ensures auditedCheckpoints == s.auditedCheckpoints && evidence == s.evidence && dependencyVersion == s.dependencyVersion
      ensures observationVersion == s.observationVersion && version == s.version
    {
      auditedCheckpoints, evidence, dependencyVersion := s.auditedCheckpoints, s.evidence, s.dependencyVersion;
      observationVersion, version := s.observationVersion, s.version;
    }

    method RestartReports(s: Standing)
      modifies this`deliveredVersion, this`deliveredObservation, this`progressVersion, this`deliveredProgress
      modifies this`workerStatus, this`waitingReportPending, this`terminal
      ensures deliveredVersion == s.deliveredVersion && deliveredObservation == s.deliveredObservation
      ensures progressVersion == s.progressVersion && deliveredProgress == s.deliveredProgress
      ensures workerStatus == s.workerStatus && waitingReportPending == s.waitingReportPending && terminal == s.terminal
    {
      deliveredVersion, deliveredObservation := s.deliveredVersion, s.deliveredObservation;
      progressVersion, deliveredProgress := s.progressVersion, s.deliveredProgress;
      workerStatus, waitingReportPending, terminal := s.workerStatus, s.waitingReportPending, s.terminal;
    }

    method RestartAudits()
      modifies this`prs, this`observations, this`auditedFeedback, this`auditedDependencies, this`dependencyGeneration
      modifies this`evidenceIncomplete
      ensures Now() == kept
    {
      var k := kept;
      prs, observations, auditedFeedback, auditedDependencies, dependencyGeneration, evidenceIncomplete :=
        k.prs, k.observations, k.auditedFeedback, k.auditedDependencies, k.dependencyGeneration, k.evidenceIncomplete;
    }

    ghost predicate Inv()
      reads this`certified, this`revoked, this`observations, this`auditedFeedback
      reads this`certifiedDependencies, this`revokedDependencies, this`dependencyGeneration, this`evidenceIncomplete
      reads this`auditedDependencies
    {
      && FeedbackOk(certified, revoked, observations, auditedFeedback)
      && DependenciesOk(certifiedDependencies, revokedDependencies, dependencyGeneration, evidenceIncomplete, auditedDependencies)
    }

    /** A collector replaces a record; it may even bring a generation of its own. */
    method Collect(u: Url, pr: Pr)
      requires Inv()
      modifies this`prs
      ensures Inv() && prs == old(prs)[u := pr]
    {
      prs := prs[u := pr];
    }

    /** A receipt for an admitted event. */
    method Deliver(version: Option<Digest>, observation: Option<Digest>, progress: Option<Digest>)
      requires Inv()
      modifies this`deliveredVersion, this`deliveredObservation, this`deliveredProgress
      ensures Inv() && deliveredVersion == version && deliveredObservation == observation && deliveredProgress == progress
    {
      deliveredVersion, deliveredObservation, deliveredProgress := version, observation, progress;
    }

    /** Observe every assignment. */
    method Observe(urls: seq<Url>) returns (ok: bool, newPrs: map<Url, Pr>, newObservations: map<Url, Observation>)
      requires Distinct(urls)
      ensures ok ==> Watched((set u | u in urls), prs, observations, auditedFeedback, newPrs, newObservations)
    {
      hide Watched;
      newPrs, newObservations := prs, observations;
      ghost var seen: set<Url> := {};
      NothingWatched(prs, observations, auditedFeedback);
      for i := 0 to |urls|
        invariant seen == set u | u in urls[..i]
        invariant forall j :: i <= j < |urls| ==> urls[j] !in seen
        invariant Watched(seen, prs, observations, auditedFeedback, newPrs, newObservations)
      {
        var u := urls[i];
        var pr := RecordOf(prs, u);
        var raw := FeedbackVersion(pr.feedback, 0);
        var previous := if u in observations then Some(observations[u].version) else Lookup(auditedFeedback, u);
        var generation := if u in observations then observations[u].generation else 0;
        if previous.Some? && previous.value != raw {
          if generation >= MAX_GENERATION { return false, prs, observations; }
          generation := generation + 1;
        }
        WatchedNext(seen, prs, observations, auditedFeedback, newPrs, newObservations, u);
        newPrs := newPrs[u := pr.(generation := Tag(generation))];
        newObservations := newObservations[u := Observation(raw, generation)];
        seen := seen + {u};
        assert urls[..i + 1] == urls[..i] + [u];
      }
      assert urls[..|urls|] == urls;
      ok := true;
    }

    /** The audits recorded so far. */
    ghost function Audits(): Register
      reads this`auditedFeedback, this`auditedDependencies, this`certified
    {
      Register(auditedFeedback, auditedDependencies, certified)
    }

    /** Record an audit of the current feedback and evidence. */
    method Record(u: Url, dependencies: Digest)
      requires Inv() && u in prs && u in observations && !evidenceIncomplete
      requires Current(prs[u], observations[u])
      requires dependencies.DependencyDigest? && dependencies.generation == Tag(dependencyGeneration)
      modifies this`auditedFeedback, this`auditedDependencies, this`certified, this`certifiedDependencies
      ensures Inv()
      ensures Audits() == Entered(old(Audits()), {u}, prs, dependencies)
      ensures auditedFeedback == old(auditedFeedback)[u := FeedbackVersion(prs[u].feedback, observations[u].generation)]
      ensures auditedDependencies == old(auditedDependencies)[u := dependencies]
      ensures certified == old(certified) + {Certificate(u, prs[u].feedback, observations[u].generation)}
      ensures certifiedDependencies == old(certifiedDependencies) + {dependencyGeneration}
    {
      hide FeedbackOk, DependenciesOk, FeedbackVersion;
      ghost var c := Certificate(u, prs[u].feedback, observations[u].generation);
      RecordKeeps(c, observations, auditedFeedback, certified, revoked);
      RecordKeepsDependencies(u, dependencies, certifiedDependencies, revokedDependencies, dependencyGeneration, auditedDependencies);
      auditedFeedback := auditedFeedback[u := FeedbackVersion(prs[u].feedback, observations[u].generation)];
      auditedDependencies := auditedDependencies[u := dependencies];
      certified := certified + {c};
      certifiedDependencies := certifiedDependencies + {dependencyGeneration};
      RecordIsEntry(old(Audits()), u, dependencies);
    }

    lemma RecordIsEntry(r: Register, u: Url, dependencies: Digest)
      requires u in prs && u in observations && Current(prs[u], observations[u])
      ensures Entered(r, {u}, prs, dependencies)
              == Register(r.feedback[u := FeedbackVersion(prs[u].feedback, observations[u].generation)], r.dependencies[u := dependencies],
                          r.certified + {Certificate(u, prs[u].feedback, observations[u].generation)})
    {
      hide Entered, FeedbackVersion;
      EnteredOne(r, u, prs, dependencies);
      assert VersionOf(prs[u]) == FeedbackVersion(prs[u].feedback, observations[u].generation);
    }

    /** The records of `urls` are as last observed. */
    ghost predicate Observing(urls: seq<Url>)
      reads this`prs, this`observations
    {
      forall u :: u in urls ==> u in prs && u in observations && Current(prs[u], observations[u])
    }

    /** One item of a report bound to the delivered event: it certifies exactly a terminal pull request whose head it
        audited with evidence, once for each checkpoint. */
    method RecordItem(u: Url, item: Item, event: Digest, dependencies: Digest)
      requires Inv() && !evidenceIncomplete && u in prs && u in observations && Current(prs[u], observations[u])
      requires dependencies.DependencyDigest? && dependencies.generation == Tag(dependencyGeneration)
      modifies this`auditedFeedback, this`auditedDependencies, this`auditedCheckpoints, this`certified, this`certifiedDependencies
      ensures Inv()
      ensures certified == old(certified) || certified == old(certified) + {Certificate(u, prs[u].feedback, observations[u].generation)}
      ensures forall v :: v != u ==> Lookup(auditedCheckpoints, v) == Lookup(old(auditedCheckpoints), v)
                                     && Lookup(auditedFeedback, v) == Lookup(old(auditedFeedback), v)
      ensures Lookup(auditedCheckpoints, u) == Lookup(old(auditedCheckpoints), u) ==>
                Lookup(auditedFeedback, u) == Lookup(old(auditedFeedback), u)
      ensures var audits := ItemAudits(item, Present(prs, u)) && Lookup(old(auditedCheckpoints), u) != Some(CheckpointDigest(event, item));
              && Audits() == Entered(old(Audits()), if audits then {u} else {}, prs, dependencies)
              && auditedCheckpoints == if audits then old(auditedCheckpoints)[u := CheckpointDigest(event, item)] else old(auditedCheckpoints)
    {
      hide FeedbackOk, DependenciesOk, FeedbackVersion, Entered, Audits, Current, Inv;
      EnteredNone(Audits(), prs, dependencies);
      var checkpoint := CheckpointDigest(event, item);
      var claim := prs[u].feedback.state == "MERGED" || (prs[u].feedback.state == "CLOSED" && item.disposition);
      if claim && prs[u].feedback.head.Some? && item.head == prs[u].feedback.head && item.auditComplete && item.evidence
         && Lookup(auditedCheckpoints, u) != Some(checkpoint)
      {
        Record(u, dependencies);
        auditedCheckpoints := auditedCheckpoints[u := checkpoint];
      }
    }

    /** A report bound to the delivered event certifies exactly the terminal pull requests it audited, once for each
        checkpoint. */
    method RecordReport(o: Owner, report: Report, dependencies: Digest)
      requires Inv() && Observing(o.prs) && report.event.Some? && Distinct(o.prs)
      requires dependencies.DependencyDigest? && dependencies.generation == Tag(dependencyGeneration) && !evidenceIncomplete
      modifies this`auditedFeedback, this`auditedDependencies, this`auditedCheckpoints, this`certified, this`certifiedDependencies
      ensures Inv() && NewAreCurrent(old(certified), certified, o.prs, prs, observations)
      ensures forall u :: Lookup(auditedCheckpoints, u) == Lookup(old(auditedCheckpoints), u) ==>
                Lookup(auditedFeedback, u) == Lookup(old(auditedFeedback), u)
      ensures Audits() == Entered(old(Audits()), ReportedAmong(o.prs, prs, report, old(auditedCheckpoints)), prs, dependencies)
    {
      hide FeedbackOk, DependenciesOk, FeedbackVersion, Current, Lookup, Inv, Entered, ReportedAmong, Audits, Present, ItemAudits, Find;
      ghost var were, before := Audits(), auditedCheckpoints;
      NoneReported(prs, report, before);
      EnteredNone(were, prs, dependencies);
      for i := 0 to |o.prs|
        invariant Inv() && NewAreCurrent(old(certified), certified, o.prs, prs, observations)
        invariant forall u :: u !in o.prs[..i] ==>
                    Lookup(auditedCheckpoints, u) == Lookup(old(auditedCheckpoints), u)
                    && Lookup(auditedFeedback, u) == Lookup(old(auditedFeedback), u)
        invariant forall u :: Lookup(auditedCheckpoints, u) == Lookup(old(auditedCheckpoints), u) ==>
                    Lookup(auditedFeedback, u) == Lookup(old(auditedFeedback), u)
        invariant Audits() == Entered(were, ReportedAmong(o.prs[..i], prs, report, before), prs, dependencies)
      {
        var u := o.prs[i];
        assert u !in o.prs[..i];
        var found := Find(report.items, u);
        ReportedOne(u, prs, report, before);
        ReportedNext(o.prs, prs, report, before, i);
        EnteredNone(Audits(), prs, dependencies);
        EnteredTwice(were, ReportedAmong(o.prs[..i], prs, report, before), ReportedAmong([u], prs, report, before), prs, dependencies);
        if found.Some? { RecordItem(u, found.value, report.event.value, dependencies); }
      }
      assert o.prs[..|o.prs|] == o.prs;
    }

    /** One finding certifies exactly when it names the current versions, with evidence. */
    method RecordFinding(o: Owner, f: Finding, dependencies: Digest)
      requires Inv() && Observing(o.prs)
      requires dependencies.DependencyDigest? && dependencies.generation == Tag(dependencyGeneration) && !evidenceIncomplete
      modifies this`auditedFeedback, this`auditedDependencies, this`certified, this`certifiedDependencies
      ensures Inv() && NewAreCurrent(old(certified), certified, o.prs, prs, observations)
      ensures Audits() == Entered(old(Audits()), FoundAmong(o.prs, o, prs, [f], dependencies), prs, dependencies)
    {
      hide FeedbackOk, DependenciesOk, FoundAmong, Entered, Audits;
      FoundOne(o.prs, o, prs, f, dependencies);
      EnteredNone(Audits(), prs, dependencies);
      if f.evidence && (o.dependencies == [] || f.dependencies == Some(dependencies)) && f.url in o.prs
         && f.feedback == VersionOf(prs[f.url])
      {
        Record(f.url, dependencies);
      }
    }

    /** A separate audit certifies exactly what its findings of the current versions, with evidence, are about. */
    method RecordAudit(o: Owner, findings: seq<Finding>, dependencies: Digest)
      requires Inv() && Observing(o.prs)
      requires dependencies.DependencyDigest? && dependencies.generation == Tag(dependencyGeneration) && !evidenceIncomplete
      modifies this`auditedFeedback, this`auditedDependencies, this`certified, this`certifiedDependencies
      ensures Inv() && NewAreCurrent(old(certified), certified, o.prs, prs, observations)
      ensures Audits() == Entered(old(Audits()), FoundAmong(o.prs, o, prs, findings, dependencies), prs, dependencies)
    {
      hide *;
      ghost var were := Audits();
      NothingNew(certified, o.prs, prs, observations);
      NoneFound(o.prs, o, prs, dependencies);
      EnteredNone(were, prs, dependencies);
      for i := 0 to |findings|
        invariant Inv() && NewAreCurrent(old(certified), certified, o.prs, prs, observations)
        invariant Audits() == Entered(were, FoundAmong(o.prs, o, prs, findings[..i], dependencies), prs, dependencies)
      {
        ghost var mid := certified;
        RecordFinding(o, findings[i], dependencies);
        NewThrough(old(certified), mid, certified, o.prs, prs, observations);
        FoundNext(o.prs, o, prs, findings, i, dependencies);
        EnteredTwice(were, FoundAmong(o.prs, o, prs, findings[..i], dependencies),
                     FoundAmong(o.prs, o, prs, [findings[i]], dependencies), prs, dependencies);
      }
      assert findings[..|findings|] == findings;
    }

    predicate Undelivered()
      reads this`progressVersion, this`deliveredProgress
    {
      progressVersion.Some? && progressVersion != deliveredProgress
    }

    /** The audits of `u` are of the journal's current versions. */
    predicate Audited(o: Owner, u: Url, dependencies: Digest)
      reads this`prs, this`auditedFeedback, this`auditedDependencies
    {
      && Lookup(auditedFeedback, u) == Some(VersionOf(RecordOf(prs, u)))
      && (o.dependencies != [] ==> Lookup(auditedDependencies, u) == Some(dependencies))
    }

    predicate TerminalNow(o: Owner, dependencies: Digest)
      reads this`prs, this`auditedFeedback, this`auditedDependencies, this`workerStatus, this`waitingReportPending
      reads this`progressVersion, this`deliveredProgress, this`evidenceIncomplete
    {
      && !evidenceIncomplete && !waitingReportPending && (progressVersion.Some? ==> progressVersion == deliveredProgress)
      && (workerStatus.Some? ==> workerStatus.value.status != "waiting")
      && forall u | u in o.prs :: RecordOf(prs, u).feedback.state in {"MERGED", "CLOSED"} && Audited(o, u, dependencies)
    }

    /** Adopt the producers' evidence. Missing evidence drops every dependency audit, and its first loss moves
        the generation on. */
    method AdoptEvidence(e: Evidence)
      requires Inv() && (!Complete(e) && !evidenceIncomplete ==> dependencyGeneration < MAX_GENERATION)
      modifies this`evidence, this`evidenceIncomplete, this`dependencyGeneration, this`auditedDependencies, this`revokedDependencies
      ensures Inv() && evidence == e && evidenceIncomplete == !Complete(e)
      ensures dependencyGeneration == old(dependencyGeneration) + if !Complete(e) && !old(evidenceIncomplete) then 1 else 0
      ensures revokedDependencies == old(revokedDependencies) + if Complete(e) then {} else certifiedDependencies
      ensures Audits() == Retained(old(Audits()), Complete(e))
    {
      hide FeedbackOk;
      evidence := e;
      if !Complete(e) {
        if !evidenceIncomplete { dependencyGeneration := dependencyGeneration + 1; }
        auditedDependencies := map[];
        revokedDependencies := revokedDependencies + certifiedDependencies;
      }
      evidenceIncomplete := !Complete(e);
    }

    /** Look at every assignment and revoke what its record contradicts. */
    method Look(urls: seq<Url>) returns (ok: bool)
      requires Inv() && Distinct(urls)
      modifies this`prs, this`observations, this`revoked
      ensures Inv()
      ensures !ok ==> prs == old(prs) && observations == old(observations) && revoked == old(revoked)
      ensures ok ==> Observing(urls) && revoked == old(revoked) + Contradicted(certified, set u | u in urls, old(prs))
    {
      hide FeedbackOk, DependenciesOk, FeedbackVersion, Watched, Contradicted, Distinct, Current;
      var newPrs, newObservations;
      ok, newPrs, newObservations := Observe(urls);
      if !ok { return; }
      ghost var all := set u | u in urls;
      LooksKeep(all, prs, observations, auditedFeedback, newPrs, newObservations, certified, revoked);
      LooksAreCurrent(all, prs, observations, auditedFeedback, newPrs, newObservations);
      revoked := revoked + Contradicted(certified, all, prs);
      prs, observations := newPrs, newObservations;
    }

    /** What the packet holds of its worker. */
    function WorkerNow(): Worker
      reads this`workerStatus, this`waitingReportPending, this`progressVersion
    {
      Worker(workerStatus, waitingReportPending, progressVersion)
    }

    /** What the packet certifies is the register's. */
    lemma Registered()
      ensures Audits().certified == certified
    {
    }

    /** What the report says about the worker. */
    method Adopt(report: Report)
      modifies this`workerStatus, this`waitingReportPending, this`progressVersion
      ensures WorkerNow() == Adopted(old(WorkerNow()), Some(report), true, !evidenceIncomplete)
    {
      workerStatus, waitingReportPending := Some(report), report.status == "waiting";
      if !evidenceIncomplete && report.status == "ready_for_work" { progressVersion := Some(ReportDigest(report)); }
    }

    /** Adopt a report bound to the delivered event; only then does it certify anything. */
    method AdoptReport(o: Owner, observation: Digest, dependencies: Digest, report: Report)
      requires Inv() && Distinct(o.prs) && Observing(o.prs)
      requires dependencies.DependencyDigest? && dependencies.generation == Tag(dependencyGeneration)
      modifies this`workerStatus, this`waitingReportPending, this`progressVersion
      modifies this`auditedFeedback, this`auditedDependencies, this`auditedCheckpoints, this`certified, this`certifiedDependencies
      ensures Inv() && NewAreCurrent(old(certified), certified, o.prs, prs, observations)
      ensures evidenceIncomplete || report.event.None? || report.event != deliveredVersion || deliveredObservation != Some(observation)
              ==> certified == old(certified)
      ensures var bound := Bound(Some(report), deliveredVersion, deliveredObservation, observation);
              && Audits() == Entered(old(Audits()), Reported(o, prs, Some(report), bound && !evidenceIncomplete, old(auditedCheckpoints)),
                                     prs, dependencies)
              && WorkerNow() == Adopted(old(WorkerNow()), Some(report), bound, !evidenceIncomplete)
    {
      hide Inv, NewAreCurrent, Entered, ReportedAmong, Distinct, Observing, Audits, WorkerNow, Adopted;
      NothingNew(certified, o.prs, prs, observations);
      EnteredNone(Audits(), prs, dependencies);
      NoReport(o, prs, Some(report), false, !evidenceIncomplete, auditedCheckpoints, WorkerNow());
      if report.event.Some? && report.event == deliveredVersion && deliveredObservation == Some(observation) {
        Adopt(report);
        if !evidenceIncomplete { RecordReport(o, report, dependencies); }
      }
    }

    /** Record the audits that the report and the separate findings carry, while the evidence is complete. */
    method Certify(o: Owner, observation: Digest, dependencies: Digest, report: Option<Report>, audit: seq<Finding>)
      requires Inv() && Distinct(o.prs) && Observing(o.prs)
      requires dependencies.DependencyDigest? && dependencies.generation == Tag(dependencyGeneration)
      modifies this`workerStatus, this`waitingReportPending, this`progressVersion
      modifies this`auditedFeedback, this`auditedDependencies, this`auditedCheckpoints, this`certified, this`certifiedDependencies
      ensures Inv() && NewAreCurrent(old(certified), certified, o.prs, prs, observations)
      ensures evidenceIncomplete ==> certified == old(certified)
      ensures var bound := Bound(report, deliveredVersion, deliveredObservation, observation);
              var us := NewlyAudited(o, prs, !evidenceIncomplete, report, bound, old(auditedCheckpoints), audit, dependencies);
              && Audits() == Entered(old(Audits()), us, prs, dependencies)
              && NewAreBacked(old(certified), certified, o, report, bound, audit, dependencies)
              && WorkerNow() == Adopted(old(WorkerNow()), report, bound, !evidenceIncomplete)
    {
      hide *;
      ghost var bound := Bound(report, deliveredVersion, deliveredObservation, observation);
      ghost var before, reported := Audits(), Reported(o, prs, report, bound, auditedCheckpoints);
      ghost var found := FoundAmong(o.prs, o, prs, audit, dependencies);
      NothingNew(certified, o.prs, prs, observations);
      NoneIsBacked(certified, o, report, bound, audit, dependencies);
      NoReport(o, prs, report, false, !evidenceIncomplete, auditedCheckpoints, WorkerNow());
      NoReport(o, prs, None, bound, !evidenceIncomplete, auditedCheckpoints, WorkerNow());
      NewlyMeans(o, prs, report, bound, auditedCheckpoints, audit, dependencies);
      EnteredNone(before, prs, dependencies);
      Registered();
      if report.Some? { AdoptReport(o, observation, dependencies, report.value); }
      if !evidenceIncomplete {
        ghost var mid := certified;
        RecordAudit(o, audit, dependencies);
        NewThrough(old(certified), mid, certified, o.prs, prs, observations);
        EnteredTwice(before, reported, found, prs, dependencies);
        EnteredIsBacked(before, o, prs, dependencies, report, bound, old(auditedCheckpoints), audit);
      }
      Registered();
    }

    /** How many closed pull requests lack a current audit, and whether all are closed. */
    method Arrears(o: Owner, dependencies: Digest) returns (backlog: nat, closed: bool)
      ensures closed <==> forall u :: u in o.prs ==> RecordOf(prs, u).feedback.state in {"MERGED", "CLOSED"}
      ensures backlog == 0 <==> forall u :: u in o.prs && RecordOf(prs, u).feedback.state in {"MERGED", "CLOSED"} ==>
                !evidenceIncomplete && Audited(o, u, dependencies)
    {
      hide VersionOf, RecordOf, Lookup;
      backlog, closed := 0, true;
      for i := 0 to |o.prs|
        invariant closed <==> forall u :: u in o.prs[..i] ==> RecordOf(prs, u).feedback.state in {"MERGED", "CLOSED"}
        invariant backlog == 0 <==> forall u :: u in o.prs[..i] && RecordOf(prs, u).feedback.state in {"MERGED", "CLOSED"} ==>
                    !evidenceIncomplete && Audited(o, u, dependencies)
      {
        assert o.prs[..i + 1] == o.prs[..i] + [o.prs[i]];
        var u := o.prs[i];
        if !Closed(RecordOf(prs, u).feedback) {
          closed := false;
        } else if evidenceIncomplete || Lookup(auditedFeedback, u) != Some(VersionOf(RecordOf(prs, u)))
                  || (o.dependencies != [] && Lookup(auditedDependencies, u) != Some(dependencies))
        {
          backlog := backlog + 1;
        }
      }
      assert o.prs[..|o.prs|] == o.prs;
    }

    /** The new version, and the terminal flag: no audit is in arrears and every pull request is closed. */
    method Judge(o: Owner, observation: Digest, dependencies: Digest)
      modifies this`observationVersion, this`version, this`terminal
      ensures observationVersion == Some(observation) && version == Some(VersionDigest(observation, progressVersion))
      ensures terminal <==> TerminalNow(o, dependencies)
      ensures evidenceIncomplete ==> !terminal
    {
      observationVersion := Some(observation);
      version := Some(VersionDigest(observation, progressVersion));
      var backlog, closed := Arrears(o, dependencies);
      terminal := !evidenceIncomplete && backlog == 0 && !waitingReportPending && !Undelivered() && closed
                  && (workerStatus.None? || workerStatus.value.status != "waiting");
    }

    lemma VersionsMean(o: Owner, e: Evidence, goal: string)
      ensures DependencyVersionOf(o, e, dependencyGeneration) == DependencyDigest(Producers(o), e, Tag(dependencyGeneration))
      ensures ObservationOf(prs, o, e, goal, dependencyGeneration)
              == ObservationDigest(RecordsOf(prs, o.prs), e, goal, Producers(o), Tag(dependencyGeneration))
    {
      hide Producers, RecordsOf, Tag;
    }

    /** Keep the obligation of a waiting worker when a follow-up makes its report stale. */
    method Owe()
      modifies this`waitingReportPending
      ensures WorkerNow() == Owing(old(WorkerNow()))
    {
      if workerStatus.Some? && workerStatus.value.status == "waiting" { waitingReportPending := true; }
    }

    /** Keep what the worker owes and record the audits, after the evidence was adopted from `before`. */
    method Enter(o: Owner, observation: Digest, dependencies: Digest, report: Option<Report>, audit: seq<Finding>, ghost before: Register)
      requires Inv() && Distinct(o.prs) && Observing(o.prs) && Audits() == Retained(before, !evidenceIncomplete)
      requires dependencies.DependencyDigest? && dependencies.generation == Tag(dependencyGeneration)
      modifies this`workerStatus, this`waitingReportPending, this`progressVersion
      modifies this`auditedFeedback, this`auditedDependencies, this`auditedCheckpoints, this`certified, this`certifiedDependencies
      ensures Inv() && NewAreCurrent(old(certified), certified, o.prs, prs, observations)
      ensures evidenceIncomplete ==> certified == old(certified)
      ensures Assessed(before, Audits(), old(WorkerNow()), WorkerNow(), o, prs, !evidenceIncomplete, report,
                       Bound(report, deliveredVersion, deliveredObservation, observation), old(auditedCheckpoints), audit, dependencies)
    {
      hide *;
      Registered();
      SameCertificates(before, !evidenceIncomplete);
      Owe();
      Certify(o, observation, dependencies, report, audit);
      Registered();
      AssessedWhole(before, Audits(), old(WorkerNow()), WorkerNow(), o, prs, !evidenceIncomplete, report,
                    Bound(report, deliveredVersion, deliveredObservation, observation), old(auditedCheckpoints), audit, dependencies);
    }

    /** Fingerprint the adopted evidence and the records, enter the audits of these versions and judge. */
    method Weigh(o: Owner, e: Evidence, goal: string, report: Option<Report>, audit: seq<Finding>, ghost before: Register)
      requires Inv() && Distinct(o.prs) && Observing(o.prs)
      requires Audits() == Retained(before, !evidenceIncomplete)
      modifies this`dependencyVersion
      modifies this`workerStatus, this`waitingReportPending, this`progressVersion, this`observationVersion, this`version, this`terminal
      modifies this`auditedFeedback, this`auditedDependencies, this`auditedCheckpoints, this`certified, this`certifiedDependencies
      ensures Inv() && NewAreCurrent(old(certified), certified, o.prs, prs, observations)
      ensures evidenceIncomplete ==> !terminal && certified == old(certified)
      ensures dependencyVersion == Some(DependencyDigest(Producers(o), e, Tag(dependencyGeneration)))
      ensures terminal <==> TerminalNow(o, dependencyVersion.value)
      ensures observationVersion == Some(ObservationDigest(RecordsOf(prs, o.prs), e, goal, Producers(o), Tag(dependencyGeneration)))
      ensures version == Some(VersionDigest(observationVersion.value, progressVersion))
      ensures Assessed(before, Audits(), old(WorkerNow()), WorkerNow(), o, prs, !evidenceIncomplete, report,
                       Bound(report, deliveredVersion, deliveredObservation, observationVersion.value), old(auditedCheckpoints), audit,
                       dependencyVersion.value)
    {
      hide *;
      var current := DependencyVersionOf(o, e, dependencyGeneration);
      dependencyVersion := Some(current);
      var observation := ObservationOf(prs, o, e, goal, dependencyGeneration);
      VersionsMean(o, e, goal);
      Enter(o, observation, current, report, audit, before);
      Judge(o, observation, current);
    }

    /** Judge the evidence, the audits and the state, after the look. */
    method Assess(o: Owner, e: Evidence, goal: string, report: Option<Report>, audit: seq<Finding>)
      requires Inv() && Distinct(o.prs) && Observing(o.prs) && (!Complete(e) && !evidenceIncomplete ==> dependencyGeneration < MAX_GENERATION)
      modifies this`evidence, this`evidenceIncomplete, this`dependencyGeneration, this`dependencyVersion, this`revokedDependencies
      modifies this`workerStatus, this`waitingReportPending, this`progressVersion, this`observationVersion, this`version, this`terminal
      modifies this`auditedFeedback, this`auditedDependencies, this`auditedCheckpoints, this`certified, this`certifiedDependencies
      ensures Inv() && NewAreCurrent(old(certified), certified, o.prs, prs, observations)
      ensures revokedDependencies == old(revokedDependencies) + if Complete(e) then {} else old(certifiedDependencies)
      ensures !Complete(e) ==> !terminal && certified == old(certified)
      ensures dependencyVersion == Some(DependencyDigest(Producers(o), e, Tag(dependencyGeneration)))
      ensures terminal <==> TerminalNow(o, dependencyVersion.value)
      ensures evidence == e && dependencyGeneration == old(dependencyGeneration) + if !Complete(e) && !old(evidenceIncomplete) then 1 else 0
      ensures observationVersion == Some(ObservationDigest(RecordsOf(prs, o.prs), e, goal, Producers(o), Tag(dependencyGeneration)))
      ensures version == Some(VersionDigest(observationVersion.value, progressVersion))
      ensures Assessed(old(Audits()), Audits(), old(WorkerNow()), WorkerNow(), o, prs, Complete(e), report,
                       Bound(report, deliveredVersion, deliveredObservation, observationVersion.value), old(auditedCheckpoints), audit,
                       dependencyVersion.value)
    {
      hide *;
      ghost var audits := Audits();
      AdoptEvidence(e);
      Weigh(o, e, goal, report, audit, audits);
    }

    /** One refresh of the owner: observe, adopt evidence, record audits, judge. It changes nothing when it
        fails. Every certificate the records contradict is revoked, and new ones are of current content. */
    method Refresh(o: Owner, dependencies: map<nat, string>, goal: string, report: Option<Report>, audit: seq<Finding>)
      returns (ok: bool)
      requires Inv()
      modifies this`prs, this`observations, this`revoked
      modifies this`evidence, this`evidenceIncomplete, this`dependencyGeneration, this`dependencyVersion, this`revokedDependencies
      modifies this`workerStatus, this`waitingReportPending, this`progressVersion, this`observationVersion, this`version, this`terminal
      modifies this`auditedFeedback, this`auditedDependencies, this`auditedCheckpoints, this`certified, this`certifiedDependencies
      ensures Inv()
      ensures !ok ==> unchanged(this)
      ensures ok ==> Observing(o.prs) && NewAreCurrent(old(certified), certified, o.prs, prs, observations)
      ensures ok ==> revoked == old(revoked) + Contradicted(old(certified), set u | u in o.prs, old(prs))
      ensures ok ==> revokedDependencies == old(revokedDependencies)
                     + if Complete(Declared(o, dependencies)) then {} else old(certifiedDependencies)
      ensures ok && !Complete(Declared(o, dependencies)) ==> !terminal && certified == old(certified)
      ensures ok ==> evidence == Declared(o, dependencies)
                     && dependencyVersion == Some(DependencyDigest(Producers(o), evidence, Tag(dependencyGeneration)))
                     && (terminal <==> TerminalNow(o, dependencyVersion.value))
      ensures ok ==> observationVersion == Some(ObservationDigest(RecordsOf(prs, o.prs), evidence, goal, Producers(o), Tag(dependencyGeneration)))
                     && version == Some(VersionDigest(observationVersion.value, progressVersion))
      ensures ok ==> Assessed(old(Audits()), Audits(), old(WorkerNow()), WorkerNow(), o, prs, Complete(evidence), report,
                              Bound(report, deliveredVersion, deliveredObservation, observationVersion.value), old(auditedCheckpoints),
                              audit, dependencyVersion.value)
    {
      hide *;
      var e := Declared(o, dependencies);
      if !Distinct(o.prs) || (report.Some? && !StatusOk(report.value)) { return false; }
      if !Complete(e) && !evidenceIncomplete && dependencyGeneration >= MAX_GENERATION { return false; }
      ok := Look(o.prs);
      if ok { Assess(o, e, goal, report, audit); }
    }

    /** The owner's part of the finished check, over the journal as it stands. */
    predicate Finished(o: Owner)
      reads this
    {
      var current := DependencyVersionOf(o, evidence, dependencyGeneration);
      && terminal && !evidenceIncomplete && !waitingReportPending && !Undelivered()
      && (workerStatus.Some? ==> workerStatus.value.status != "waiting")
      && (observations == map[] || forall u | u in o.prs ::
            && u in observations && observations[u].version == FeedbackVersion(RecordOf(prs, u).feedback, 0)
            && observations[u].generation == RecordOf(prs, u).generation.GetOr(0))
      && (o.dependencies == [] || (evidence.Keys == Producers(o) && Complete(evidence)))
      && forall u | u in o.prs ::
           && Closed(RecordOf(prs, u).feedback) && !RecordOf(prs, u).failing
           && Lookup(auditedFeedback, u) == Some(VersionOf(RecordOf(prs, u)))
           && (o.dependencies == [] || (dependencyVersion == Some(current) && Lookup(auditedDependencies, u) == Some(current)))
    }

    /** A finished owner has, for each pull request, an audit of its present feedback that nothing revoked,
        and one of its producers' evidence that nothing revoked. */
    lemma FinishedNeedsLiveAudits(o: Owner, u: Url)
      requires Inv() && observations != map[] && Finished(o) && u in o.prs
      ensures exists c :: c in certified && c !in revoked && c.url == u && c.feedback == RecordOf(prs, u).feedback
                          && auditedFeedback[u] == FeedbackVersion(c.feedback, c.generation)
      ensures o.dependencies != [] ==> dependencyGeneration in certifiedDependencies && dependencyGeneration !in revokedDependencies
    {
      assert Backed(certified, u, auditedFeedback[u]);
      var c :| c in certified && c.url == u && auditedFeedback[u] == FeedbackVersion(c.feedback, c.generation);
      assert c !in revoked;
    }

    /** One thing that may happen to the packet. */
    method Round(o: Owner, dependencies: map<nat, string>, goal: string, report: Option<Report>, audit: seq<Finding>, u: Url, pr: Pr)
      requires Inv() && Kept()
      modifies this
      ensures Inv() && Kept()
      ensures old(keptRevoked) <= keptRevoked && old(keptRevokedDependencies) <= keptRevokedDependencies
    {
      hide *;
      KeptParts();
      if {
        case true =>
          Collect(u, pr);
          KeptWhole();
        case true =>
          var v, observed, progress: Option<Digest> := *, *, *;
          Deliver(v, observed, progress);
          KeptWhole();
        case true =>
          var ok := Refresh(o, dependencies, goal, report, audit);
          KeptWhole();
        case true => var e := Persist();
        case true => Restart();
      }
    }

    lemma KeptParts()
      requires Kept()
      ensures FeedbackOk(keptCertified, keptRevoked, kept.observations, kept.auditedFeedback)
      ensures DependenciesOk(keptCertifiedDependencies, keptRevokedDependencies, kept.dependencyGeneration, kept.evidenceIncomplete,
                             kept.auditedDependencies)
      ensures keptRevoked <= revoked && keptRevokedDependencies <= revokedDependencies
    {
      hide FeedbackOk, DependenciesOk;
    }

    lemma KeptWhole()
      requires FeedbackOk(keptCertified, keptRevoked, kept.observations, kept.auditedFeedback)
      requires DependenciesOk(keptCertifiedDependencies, keptRevokedDependencies, kept.dependencyGeneration, kept.evidenceIncomplete,
                              kept.auditedDependencies)
      requires keptRevoked <= revoked && keptRevokedDependencies <= revokedDependencies
      ensures Kept()
    {
      hide FeedbackOk, DependenciesOk;
    }

    /** Any history of collections, deliveries, refreshes, saves and restarts, under any inputs: what was revoked when
        the entry was persisted stays revoked, and after a refresh no revoked audit is of the current version. */
    method History(rounds: seq<(Owner, map<nat, string>, string, Option<Report>, seq<Finding>)>, records: seq<(Url, Pr)>)
      requires Inv() && Kept() && |records| == |rounds|
      modifies this
      ensures Inv() && Kept()
      ensures old(keptRevoked) <= keptRevoked <= revoked
      ensures old(keptRevokedDependencies) <= keptRevokedDependencies <= revokedDependencies
      ensures forall c :: c in revoked && c.url in prs && c.url in observations && Current(prs[c.url], observations[c.url]) ==>
                VersionOf(prs[c.url]) != FeedbackVersion(c.feedback, c.generation)
    {
      hide *;
      for i := 0 to |rounds|
        invariant Inv() && Kept()
        invariant old(keptRevoked) <= keptRevoked && old(keptRevokedDependencies) <= keptRevokedDependencies
      {
        var (o, dependencies, goal, report, audit) := rounds[i];
        Round(o, dependencies, goal, report, audit, records[i].0, records[i].1);
      }
      KeptParts();
      NoneIsCurrent();
    }

    lemma NoneIsCurrent()
      requires Inv()
      ensures forall c :: c in revoked && c.url in prs && c.url in observations && Current(prs[c.url], observations[c.url]) ==>
                VersionOf(prs[c.url]) != FeedbackVersion(c.feedback, c.generation)
    {
      hide Current, FeedbackOk, DependenciesOk;
      forall c | c in revoked && c.url in prs && c.url in observations && Current(prs[c.url], observations[c.url])
        ensures VersionOf(prs[c.url]) != FeedbackVersion(c.feedback, c.generation)
      {
        RevokedIsNeverCurrent(c, prs[c.url], observations, auditedFeedback, certified, revoked);
      }
    }
  }
}
