/** At-most-once review dispatch for one pull request: a persistent lock whose content is a history anchor,
    a journal of immutable intents, and a provider whose submissions cannot be taken back. Workers open the
    lock file in any order, effects fault or are the last before a crash, and a power loss keeps only what
    was synced. Two submissions of one comparison are always separated by a definitive rejection. */
module ReviewDispatch {
  import opened Effects

  datatype Candidate = Candidate(
    head: string, base: string, url: string, sourceRepository: string, sourceBranch: string, targetBranch: string,
    draft: bool, open: bool)

  /** The digest is missing when the policy cannot be encoded. */
  datatype Policy = Policy(provider: string, transport: string, digest: Option<string>)

  datatype Capabilities = Capabilities(provider: string, transport: string, drafts: bool, revisionAttestation: bool)

  datatype Intent = Intent(schemaVersion: nat, id: string, candidate: Candidate, policyDigest: string, baseline: seq<string>)

  datatype Submission = Unknown | Submitted | Deferred

  datatype Verdict = Ready | Findings | Pending | Blocked | Stale

  datatype Outcome = Outcome(verdict: Verdict, requestId: Option<string>, nextPollAt: Option<nat>)

  datatype Run = Run(intent: Intent, submission: Submission, receipt: Option<string>, outcome: Option<Outcome>)

  datatype Journal = Journal(schemaVersion: nat, historyComplete: bool, runs: seq<Run>)

  /** The journal path: nothing, unreadable bytes, one run of the old format, or a journal. */
  datatype File = Missing | Garbage | Legacy(run: Run) | Saved(journal: Journal)

  datatype Anchor = Blank | Torn | Armed

  datatype Disk = Disk(lock: bool, anchor: Anchor, file: File)

  /** What the provider's side saw. */
  datatype Event = Submit(key: Key) | Rejected(key: Key, retryAt: nat)

  /** What makes two comparisons the same dispatch. */
  datatype Key = Key(
    head: string, base: string, url: string, sourceRepository: string, sourceBranch: string, targetBranch: string,
    policyDigest: string)

  datatype TickResult = Reported(outcome: Outcome) | Failed | Died

  /** A complete provider observation. */
  datatype Evidence = Evidence(
    knownReviews: seq<string>, recovered: Option<Intent>, receipt: Option<string>, review: Option<Verdict>)

  /** What the forge and the provider answer during one tick: the observation, if it succeeds, whether required checks are
      clear, if they can be had, and the comparison as seen before dispatch and at the end. */
  datatype Answers = Answers(observed: bool, evidence: Evidence, checks: Option<bool>, before: Candidate, last: Candidate)

  function KeyOf(c: Candidate, digest: string): Key {
    Key(c.head, c.base, c.url, c.sourceRepository, c.sourceBranch, c.targetBranch, digest)
  }

  predicate Matches(i: Intent, c: Candidate, p: Policy) {
    && i.schemaVersion == 1
    && i.candidate.head == c.head && i.candidate.base == c.base && i.candidate.url == c.url
    && i.candidate.sourceRepository == c.sourceRepository && i.candidate.sourceBranch == c.sourceBranch
    && i.candidate.targetBranch == c.targetBranch && p.digest == Some(i.policyDigest)
  }

  /** The run dispatches `k`. */
  predicate Carries(r: Run, k: Key) { r.intent.schemaVersion == 1 && KeyOf(r.intent.candidate, r.intent.policyDigest) == k }

  lemma MatchIsSameKey(r: Run, c: Candidate, p: Policy)
    ensures Matches(r.intent, c, p) <==> p.digest.Some? && Carries(r, KeyOf(c, p.digest.value))
  {
  }

  // ---------- the history ----------

  /** The latest event of `k` is a submission. */
  predicate Outstanding(log: seq<Event>, k: Key) {
    log != [] &&
    var last := log[|log| - 1];
    if last.key == k then last.Submit? else Outstanding(log[..|log| - 1], k)
  }

  predicate Spaced(log: seq<Event>) {
    log != [] ==>
      var rest, last := log[..|log| - 1], log[|log| - 1];
      Spaced(rest) && (last.Submit? ==> !Outstanding(rest, last.key))
  }

  lemma Logged(log: seq<Event>, e: Event, k: Key)
    ensures Outstanding(log + [e], k) == if e.key == k then e.Submit? else Outstanding(log, k)
    ensures Spaced(log + [e]) == (Spaced(log) && (e.Submit? ==> !Outstanding(log, e.key)))
  {
    assert (log + [e])[..|log|] == log;
  }

  lemma {:induction false} OutstandingSince(log: seq<Event>, i: nat, k: Key)
    requires i < |log| && log[i] == Submit(k) && forall m :: i < m < |log| ==> !(log[m].Rejected? && log[m].key == k)
    ensures Outstanding(log, k)
  {
    if i < |log| - 1 && log[|log| - 1].key != k {
      OutstandingSince(log[..|log| - 1], i, k);
    }
  }

  /** Spacing, spelled out: between two submissions of one comparison lies a rejection of it. */
  lemma {:induction false} SubmissionsAreSeparated(log: seq<Event>, i: nat, j: nat)
    requires Spaced(log) && i < j < |log| && log[i].Submit? && log[j] == log[i]
    ensures exists m :: i < m < j && log[m].Rejected? && log[m].key == log[i].key
  {
    var rest := log[..|log| - 1];
    if j < |log| - 1 {
      SubmissionsAreSeparated(rest, i, j);
      var m :| i < m < j && rest[m].Rejected? && rest[m].key == rest[i].key;
      assert log[m] == rest[m];
    } else if forall m :: i < m < j ==> !(log[m].Rejected? && log[m].key == log[i].key) {
      OutstandingSince(rest, i, log[i].key);
    }
  }

  // ---------- the journal ----------

  /** No reader of these runs may submit `k` again. */
  predicate Barred(runs: seq<Run>, complete: bool, k: Key) {
    || (exists r :: r in runs && Carries(r, k) && !r.submission.Deferred?)
    || (!complete && forall r :: r in runs ==> !Carries(r, k))
  }

  ghost predicate AllBarred(log: seq<Event>, j: Journal) { forall k :: Outstanding(log, k) ==> Barred(j.runs, j.historyComplete, k) }

  /** The same for the next reader of a disk. */
  predicate Guarded(d: Disk, k: Key) {
    match d.file
    case Missing => true
    case Garbage => true
    case Legacy(run) => Barred([run], false, k)
    case Saved(j) => j.schemaVersion == 2 ==> Barred(j.runs, d.anchor.Armed? && j.historyComplete, k)
  }

  /** What a worker that holds the lock makes of the disk; true when the history must be saved and armed. */
  function Load(d: Disk, creator: bool): Option<(Journal, bool)> {
    match (d.anchor, d.file)
    case (Armed, Saved(j)) => if j.schemaVersion == 2 then Some((j, false)) else None
    case (Blank, Missing) => if creator then Some((Journal(2, true, []), true)) else None
    case (Blank, Saved(j)) => if !creator && j.schemaVersion == 2 then Some((j.(historyComplete := false), true)) else None
    case (Blank, Legacy(run)) => if creator then None else Some((Journal(2, false, [run]), true))
    case _ => None
  }

  function RunsOf(f: File): seq<Run> {
    match f
    case Legacy(run) => [run]
    case Saved(j) => j.runs
    case _ => []
  }

  /** A history is refused exactly when it is torn, unreadable or of another format, when an armed anchor finds no
      journal, and when the creator of the lock finds a history or somebody else finds none. What is loaded holds
      the runs on disk, and is complete only if it was recorded so behind the anchor or nothing was there before. */
  lemma LoadDecides(d: Disk, creator: bool)
    ensures Load(d, creator).None? <==>
              || d.anchor.Torn? || d.file.Garbage? || (d.file.Saved? && d.file.journal.schemaVersion != 2)
              || (d.anchor.Armed? && !d.file.Saved?) || (d.anchor.Blank? && (creator <==> !d.file.Missing?))
    ensures Load(d, creator).Some? ==>
              var (j, migrate) := Load(d, creator).value;
              && j.schemaVersion == 2 && j.runs == RunsOf(d.file) && (migrate <==> !d.anchor.Armed?)
              && (j.historyComplete <==> d.file.Missing? || (d.anchor.Armed? && d.file.journal.historyComplete))
  {
  }

  lemma LoadIsBarred(log: seq<Event>, d: Disk, creator: bool)
    requires forall k :: Outstanding(log, k) ==> Guarded(d, k)
    requires creator ==> log == [] || d.anchor.Armed?
    ensures Load(d, creator).Some? ==> var j := Load(d, creator).value.0; j.schemaVersion == 2 && AllBarred(log, j)
  {
    if Load(d, creator).Some? {
      var j := Load(d, creator).value.0;
      forall k | Outstanding(log, k) ensures Barred(j.runs, j.historyComplete, k) {
        assert Guarded(d, k);
      }
    }
  }

  /** Replace the first run of the same id, whose intent must be the same, or append. */
  function SaveRun(runs: seq<Run>, run: Run): Option<seq<Run>> {
    if runs == [] then Some([run])
    else if runs[0].intent.id == run.intent.id then
      if runs[0].intent == run.intent then Some([run] + runs[1..]) else None
    else
      var rest := SaveRun(runs[1..], run);
      if rest.None? then None else Some([runs[0]] + rest.value)
  }

  /** Saving a run leaves every other dispatch as it was, and rebinds no intent. */
  lemma {:induction false} SaveRunKeeps(runs: seq<Run>, run: Run, r: Run)
    requires SaveRun(runs, run).Some?
    ensures var after := SaveRun(runs, run).value;
            && run in after
            && (r.intent != run.intent ==> (r in after <==> r in runs))
            && (r in after ==> r == run || r in runs)
  {
    if runs != [] && runs[0].intent.id != run.intent.id {
      SaveRunKeeps(runs[1..], run, r);
      assert runs == [runs[0]] + runs[1..];
    }
  }

  /** A run is refused exactly when the first one of its id has another intent. */
  lemma {:induction false} SaveRunRefuses(runs: seq<Run>, run: Run)
    ensures SaveRun(runs, run).None? <==>
              exists i :: 0 <= i < |runs| && runs[i].intent.id == run.intent.id && runs[i].intent != run.intent
                          && forall n | 0 <= n < i :: runs[n].intent.id != run.intent.id
  {
    if runs != [] && runs[0].intent.id != run.intent.id {
      var rest := runs[1..];
      SaveRunRefuses(rest, run);
      if SaveRun(rest, run).None? {
        var i :| 0 <= i < |rest| && rest[i].intent.id == run.intent.id && rest[i].intent != run.intent
                 && forall n | 0 <= n < i :: rest[n].intent.id != run.intent.id;
        assert runs[i + 1] == rest[i];
      }
      if i :| 0 <= i < |runs| && runs[i].intent.id == run.intent.id && runs[i].intent != run.intent
              && forall n | 0 <= n < i :: runs[n].intent.id != run.intent.id
      {
        assert rest[i - 1] == runs[i];
      }
    }
  }

  lemma SaveRunIsBarred(log: seq<Event>, j: Journal, run: Run)
    requires AllBarred(log, j) && SaveRun(j.runs, run).Some?
    requires forall k :: Carries(run, k) && run.submission.Deferred? ==> !Outstanding(log, k)
    ensures AllBarred(log, j.(runs := SaveRun(j.runs, run).value))
  {
    var after := SaveRun(j.runs, run).value;
    forall k | Outstanding(log, k) ensures Barred(after, j.historyComplete, k) {
      assert Barred(j.runs, j.historyComplete, k);
      SaveRunKeeps(j.runs, run, run);
      if Carries(run, k) {
        assert run in after && Carries(run, k) && !run.submission.Deferred?;
      } else if r :| r in j.runs && Carries(r, k) && !r.submission.Deferred? {
        SaveRunKeeps(j.runs, run, r);
      } else {
        forall r | r in after ensures !Carries(r, k) { SaveRunKeeps(j.runs, run, r); }
      }
    }
  }

  /** The runs that match, in order. */
  function MatchesOf(runs: seq<Run>, c: Candidate, p: Policy): (found: seq<Run>)
    ensures forall r :: r in found <==> r in runs && Matches(r.intent, c, p)
  {
    if runs == [] then []
    else (if Matches(runs[0].intent, c, p) then [runs[0]] else []) + MatchesOf(runs[1..], c, p)
  }

  /** More than one match is found exactly when two runs of the history match. */
  lemma {:induction false} AmbiguityShows(runs: seq<Run>, c: Candidate, p: Policy)
    ensures |MatchesOf(runs, c, p)| > 1 <==>
              exists i, j :: 0 <= i < j < |runs| && Matches(runs[i].intent, c, p) && Matches(runs[j].intent, c, p)
  {
    hide Matches;
    if runs != [] {
      var rest, found := runs[1..], MatchesOf(runs[1..], c, p);
      AmbiguityShows(rest, c, p);
      if found != [] {
        assert found[0] in found;
        var j :| 0 <= j < |rest| && rest[j] == found[0];
        assert runs[j + 1] == rest[j] && Matches(runs[j + 1].intent, c, p);
      }
      if i, j :| 0 <= i < j < |rest| && Matches(rest[i].intent, c, p) && Matches(rest[j].intent, c, p) {
        assert runs[i + 1] == rest[i] && runs[j + 1] == rest[j];
      }
      if i, j :| 0 <= i < j < |runs| && Matches(runs[i].intent, c, p) && Matches(runs[j].intent, c, p) {
        assert rest[j - 1] == runs[j] && rest[j - 1] in found;
        if i > 0 { assert rest[i - 1] == runs[i]; }
      }
    }
  }

  /** With one match at most, the dispatch may start from the matched or a new run only when none is outstanding. */
  lemma UniqueMatchDecides(log: seq<Event>, j: Journal, c: Candidate, p: Policy, digest: string)
    requires AllBarred(log, j) && p.digest == Some(digest) && |MatchesOf(j.runs, c, p)| <= 1
    ensures Outstanding(log, KeyOf(c, digest)) ==>
              if MatchesOf(j.runs, c, p) == [] then !j.historyComplete else !MatchesOf(j.runs, c, p)[0].submission.Deferred?
  {
    var found, k := MatchesOf(j.runs, c, p), KeyOf(c, digest);
    if found != [] {
      assert found[0] in found;
      MatchIsSameKey(found[0], c, p);
    }
    if Outstanding(log, k) {
      assert Barred(j.runs, j.historyComplete, k);
      if r :| r in j.runs && Carries(r, k) && !r.submission.Deferred? {
        MatchIsSameKey(r, c, p);
        assert r in found;
      }
    }
  }

  /** A submission of a comparison that some saved run names and does not defer stays barred. */
  lemma SubmitIsBarred(log: seq<Event>, j: Journal, run: Run, k: Key)
    requires AllBarred(log, j) && run in j.runs && !run.submission.Deferred? && Carries(run, k)
    requires Spaced(log) && !Outstanding(log, k)
    ensures AllBarred(log + [Submit(k)], j) && Spaced(log + [Submit(k)]) && Outstanding(log + [Submit(k)], k)
  {
    hide Spaced, Outstanding;
    Logged(log, Submit(k), k);
    forall x { Logged(log, Submit(k), x); }
  }

  lemma RejectIsBarred(log: seq<Event>, j: Journal, k: Key, retryAt: nat)
    requires AllBarred(log, j) && Spaced(log)
    ensures AllBarred(log + [Rejected(k, retryAt)], j) && Spaced(log + [Rejected(k, retryAt)])
    ensures !Outstanding(log + [Rejected(k, retryAt)], k)
  {
    hide Spaced, Outstanding, Barred;
    Logged(log, Rejected(k, retryAt), k);
    forall x { Logged(log, Rejected(k, retryAt), x); }
  }

  // ---------- what a tick reports ----------

  /** The comparison is no longer the one of the intent, or closed. */
  ghost predicate Moved(i: Intent, p: Policy, now: Candidate) { !Matches(i, now, p) || !now.open }

  /** The provider has never heard of the run and it may be sent. */
  ghost predicate Dispatches(run0: Run, a: Answers, allowSubmit: bool) {
    a.evidence.review.None? && a.evidence.receipt.None? && run0.submission.Deferred? && allowSubmit
  }

  /** The outcome of a tick for a run, and the run as recorded. A comparison that moved is stale; a review decides
      next, where Ready also needs clear checks; without one, a run sent before whose marker is missing is blocked,
      a run sent now waits if its receipt came back, and any other run waits. */
  ghost predicate Concluded(run0: Run, run: Run, a: Answers, p: Policy, allowSubmit: bool, o: Outcome) {
    && run.intent == run0.intent && run.outcome == Some(o) && o.requestId == Some(run0.intent.id)
    && o.verdict == (
         if Moved(run0.intent, p, a.last) then Stale
         else if a.evidence.review.Some? then
           if a.evidence.review.value.Ready? && a.checks != Some(true) then Blocked else a.evidence.review.value
         else if Dispatches(run0, a, allowSubmit) then if run.submission.Submitted? then Pending else Blocked
         else if a.evidence.receipt.None? && !run0.submission.Deferred? then Blocked
         else Pending)
    && (a.evidence.receipt.Some? ==> run.submission.Submitted? && run.receipt == a.evidence.receipt)
    && (a.evidence.receipt.None? && !Dispatches(run0, a, allowSubmit) ==> run.submission == run0.submission && run.receipt == run0.receipt)
  }

  /** The run that a tick is about: the retained one, one recovered from the provider's markers, or a new one if the
      history is complete. */
  ghost function Chosen(found: Option<Run>, complete: bool, e: Evidence, c: Candidate, p: Policy, allowSubmit: bool, id: string): Option<Run> {
    if found.Some? then found
    else if e.recovered.Some? && Matches(e.recovered.value, c, p) then Some(Run(e.recovered.value, Submitted, e.receipt, None))
    else if allowSubmit && complete && p.digest.Some? then Some(Run(Intent(1, id, c, p.digest.value, e.knownReviews), Deferred, None, None))
    else None
  }

  ghost predicate Unfit(c: Candidate, p: Policy, caps: Capabilities) {
    || !c.open || (c.draft && !caps.drafts) || !caps.revisionAttestation
    || caps.provider != p.provider || caps.transport != p.transport
  }

  /** The retained outcome still asks to wait. */
  ghost predicate Waiting(run: Run, now: nat) {
    run.outcome.Some? && run.outcome.value.nextPollAt.Some? && now < run.outcome.value.nextPollAt.value
  }

  class Desk {
    var seen: Disk
    var kept: Disk
    /** Workers with an open lock file, and whether they created it. */
    var handles: map<nat, bool>
    ghost var log: seq<Event>

    constructor (disk: Disk, ghost log: seq<Event>)
      requires Spaced(log) && (log != [] ==> disk.lock) && forall k :: Outstanding(log, k) ==> Guarded(disk, k)
      ensures Inv() && this.log == log
    {
      seen, kept, handles, this.log := disk, disk, map[], log;
    }

    ghost predicate Inv()
      reads this
    {
      && Spaced(log) && (log != [] ==> seen.lock && kept.lock)
      && (forall k :: Outstanding(log, k) ==> Guarded(seen, k) && Guarded(kept, k))
      && (forall w :: w in handles ==> seen.lock && (handles[w] ==> log == [] || seen.anchor.Armed?))
    }

    /** Create the lock file or open the existing one; only its creator counts as such. */
    method Open(w: nat) returns (e: Exit)
      requires Inv() && w !in handles
      modifies this`seen, this`handles
      ensures Inv() && (e.Fine? ==> handles == old(handles)[w := !old(seen).lock])
      ensures !e.Fine? ==> handles == old(handles)
      ensures seen == old(seen).(lock := seen.lock)
    {
      e := Attempt();
      var mine, created := !seen.lock, *;
      if e.Fine? {
        handles := handles[w := mine];
        seen := seen.(lock := true);
      } else if created {
        seen := seen.(lock := true);
      }
    }

    /** While one worker holds the lock the others can only open it. */
    method Others()
      requires Inv() && seen.lock
      modifies this`handles
      ensures Inv()
    {
      var others: set<nat> := *;
      handles := (map w | w in others :: false) + handles;
    }

    /** Ask somebody; only a crash keeps the answer. */
    method Ask() returns (dead: bool)
      requires Inv() && seen.lock
      modifies this`handles
      ensures Inv()
    {
      Others();
      dead := *;
    }

    /** What the tick reports about `run0` and what is on record then; a comparison that moved before the dispatch is
        reported without a record. */
    ghost predicate Answered(run0: Run, a: Answers, p: Policy, allowSubmit: bool, o: Outcome)
      reads this`seen, this`kept
    {
      if Dispatches(run0, a, allowSubmit) && Moved(run0.intent, p, a.before) then o == Outcome(Stale, Some(run0.intent.id), None)
      else exists j, run :: seen.file == kept.file == Saved(j) && run in j.runs && Concluded(run0, run, a, p, allowSubmit, o)
    }

    method Effect() returns (e: Exit)
      requires Inv() && seen.lock
      modifies this`handles
      ensures Inv()
    {
      Others();
      e := Attempt();
    }

    /** Replace the journal and sync its directory, which also holds the lock file. */
    method Save(j: Journal) returns (e: Exit)
      requires Inv() && seen.lock && AllBarred(log, j) && j.schemaVersion == 2
      modifies this`seen, this`kept, this`handles
      ensures Inv() && seen.lock && seen.anchor == old(seen.anchor)
      ensures e.Fine? ==> seen.file == kept.file == Saved(j) && kept.lock
    {
      Others();
      e := Attempt();
      var renamed, synced := *, *;
      Reads(log, seen, j);
      Reads(log, kept, j);
      if e.Fine? || renamed { seen := seen.(file := Saved(j)); }
      if e.Fine? || (renamed && synced) { kept := kept.(file := Saved(j), lock := kept.lock || e.Fine?); }
    }

    /** Arm the anchor of a saved history. */
    method Arm(j: Journal) returns (e: Exit)
      requires Inv() && seen.lock && kept.lock && seen.file == kept.file == Saved(j) && AllBarred(log, j) && j.schemaVersion == 2
      requires seen.anchor.Blank?
      modifies this`seen, this`kept, this`handles
      ensures Inv() && seen.lock && seen.file == old(seen.file)
      ensures e.Fine? ==> seen.anchor.Armed? && kept.file == old(kept.file)
    {
      Others();
      e := Attempt();
      var written, synced: Anchor := *, *;
      assert forall k :: Outstanding(log, k) ==> Barred(j.runs, j.historyComplete, k);
      seen := seen.(anchor := if e.Fine? then Armed else written);
      kept := kept.(anchor := if e.Fine? then Armed else synced);
    }

    /** Send the intent to the provider. The run must be durably UNKNOWN, and no earlier submission of the
        same comparison may be outstanding. */
    method Send(j: Journal, run: Run, k: Key) returns (e: Exit, receipt: Option<string>, retryAt: Option<nat>)
      requires Inv() && seen.lock && kept.lock && seen.file == kept.file == Saved(j) && AllBarred(log, j)
      requires seen.anchor.Armed? && run in j.runs && run.submission.Unknown? && Carries(run, k)
      requires !Outstanding(log, k)
      modifies this`log, this`handles
      ensures Inv() && AllBarred(log, j)
      ensures e.Fine? <==> receipt.Some?
      ensures log == old(log) + [Submit(k)] + (if e.Fault? && retryAt.Some? then [Rejected(k, retryAt.value)] else [])
      ensures Outstanding(log, k) <==> !(e.Fault? && retryAt.Some?)
    {
      hide Spaced, Outstanding, Barred, Guarded, AllBarred, Carries;
      Others();
      SubmitIsBarred(log, j, run, k);
      log := log + [Submit(k)];
      e := Attempt();
      var text := *;
      receipt := if e.Fine? then Some(text) else None;
      retryAt := *;
      if e.Fault? && retryAt.Some? {
        RejectIsBarred(log, j, k, retryAt.value);
        log := log + [Rejected(k, retryAt.value)];
      }
      Reads(log, seen, j);
      Reads(log, kept, j);
    }

    /** Read the history and, for a new or an old one, save it first and arm the anchor second. */
    method LoadJournal(creator: bool) returns (e: Exit, j: Journal)
      requires Inv() && seen.lock && (creator ==> log == [] || seen.anchor.Armed?)
      modifies this`seen, this`kept, this`handles
      ensures Inv() && seen.lock
      ensures e.Fine? ==> AllBarred(log, j) && j.schemaVersion == 2 && seen.anchor.Armed?
      ensures e.Fine? ==> j.runs == RunsOf(old(seen).file)
      ensures e.Fine? ==> (j.historyComplete <==> old(seen).file.Missing? || (old(seen).anchor.Armed? && old(seen).file.Saved? && old(seen).file.journal.historyComplete))
      ensures e.Fine? ==> seen.file == Saved(j) && (!old(seen).anchor.Armed? ==> kept.file == Saved(j))
      ensures log == old(log)
    {
      j := Journal(2, false, []);
      e := Effect();
      if !e.Fine? { return; }
      var loaded := Load(seen, creator);
      if loaded.None? { return Fault, j; }
      LoadIsBarred(log, seen, creator);
      LoadDecides(seen, creator);
      j := loaded.value.0;
      if loaded.value.1 {
        e := Save(j);
        if !e.Fine? { return; }
        e := Arm(j);
      }
    }

    /** Save one run. */
    method Store(j0: Journal, run: Run) returns (e: Exit, j: Journal)
      requires Inv() && seen.lock && seen.anchor.Armed? && AllBarred(log, j0) && j0.schemaVersion == 2
      requires forall k :: Carries(run, k) && run.submission.Deferred? ==> !Outstanding(log, k)
      modifies this`seen, this`kept, this`handles
      ensures Inv() && seen.lock && seen.anchor.Armed? && AllBarred(log, j) && j.schemaVersion == 2
      ensures e.Fine? ==> seen.file == kept.file == Saved(j) && kept.lock && run in j.runs
      ensures e.Fine? ==> SaveRun(j0.runs, run) == Some(j.runs)
    {
      j := j0;
      var saved := SaveRun(j0.runs, run);
      if saved.None? { return Fault, j; }
      SaveRunIsBarred(log, j0, run);
      SaveRunKeeps(j0.runs, run, run);
      j := j0.(runs := saved.value);
      e := Save(j);
    }

    /** Dispatch a deferred run: recheck the comparison, record UNKNOWN, send. */
    method Dispatch(j0: Journal, run0: Run, c: Candidate, p: Policy, k: Key, before: Candidate)
      returns (e: Exit, stale: bool, j: Journal, run: Run, verdict: Verdict, retryAt: Option<nat>)
      requires Inv() && seen.lock && seen.anchor.Armed? && AllBarred(log, j0) && j0.schemaVersion == 2
      requires p.digest.Some? && k == KeyOf(c, p.digest.value) && Carries(run0, k) && run0.submission.Deferred?
      requires !Outstanding(log, k)
      modifies this
      ensures Inv() && seen.lock && seen.anchor.Armed? && AllBarred(log, j) && j.schemaVersion == 2
      ensures run == run0.(submission := run.submission, receipt := run.receipt)
      ensures run.submission.Deferred? ==> !Outstanding(log, k)
      ensures log == old(log) || log == old(log) + [Submit(k)] || exists at :: log == old(log) + [Submit(k), Rejected(k, at)]
      ensures stale || !e.Fine? || log != old(log)
      ensures e.Fine? ==> (stale <==> Moved(run0.intent, p, before))
      ensures log != old(log) ==> Matches(run0.intent, before, p) && before.open
      ensures verdict == if run.submission.Submitted? then Pending else Blocked
      ensures verdict.Pending? ==> log == old(log) + [Submit(k)]
      ensures retryAt.Some? ==> log == old(log) + [Submit(k), Rejected(k, retryAt.value)]
      ensures e.Fine? && !stale ==> (retryAt.Some? <==> run.submission.Deferred?) && (retryAt.Some? <==> |log| == |old(log)| + 2)
    {
      hide AllBarred, Guarded, Barred, Outstanding, Spaced, Matches, KeyOf, Inv, SaveRun;
      j, run, verdict, retryAt, stale := j0, run0, Blocked, None, false;
      e := Effect();
      if !e.Fine? { return; }
      if !Matches(run.intent, before, p) || !before.open { stale := true; return; }
      run := run.(submission := Unknown);
      e, j := Store(j, run);
      if !e.Fine? { return; }
      var sent, receipt, again;
      sent, receipt, again := Send(j, run, k);
      e := if sent.Crash? then Crash else Fine;
      if receipt.Some? {
        run := run.(receipt := receipt, submission := Submitted);
        verdict := Pending;
      } else if sent.Fault? && again.Some? {
        run := run.(submission := Deferred);
        retryAt := again;
      }
    }

    /** One bounded observation and dispatch under the lock. It submits at most once, only when allowed and
        only for the comparison it observed, and reports that the provider rejected it or leaves it UNKNOWN. */
    method Tick(w: nat, c: Candidate, p: Policy, caps: Capabilities, a: Answers, allowSubmit: bool, now: nat, id: string)
      returns (r: TickResult)
      requires Inv() && w in handles
      modifies this
      ensures Inv()
      ensures log != old(log) ==>
                c.open && (c.draft ==> caps.drafts) && caps.revisionAttestation
                && caps.provider == p.provider && caps.transport == p.transport
      ensures log != old(log) ==> p.digest.Some? && a.before.open && KeyOf(a.before, p.digest.value) == KeyOf(c, p.digest.value)
      ensures log == old(log) || (allowSubmit && p.digest.Some? &&
                var k := KeyOf(c, p.digest.value);
                || log == old(log) + [Submit(k)]
                || exists at :: log == old(log) + [Submit(k), Rejected(k, at)])
      ensures r.Reported? && Unfit(c, p, caps) ==> r.outcome == Outcome(Blocked, None, None)
      ensures r.Reported? && !Unfit(c, p, caps) ==>
                var runs := MatchesOf(RunsOf(old(seen).file), c, p);
                var complete := old(seen).file.Missing? || (old(seen).anchor.Armed? && old(seen).file.Saved? && old(seen).file.journal.historyComplete);
                && |runs| <= 1
                && if runs != [] && Waiting(runs[0], now) then r.outcome == runs[0].outcome.value && log == old(log)
                   else Told(if runs == [] then None else Some(runs[0]), complete, a, c, p, allowSubmit, id, r.outcome)
    {
      hide AllBarred, Guarded, Barred, Outstanding, Spaced, Inv, KeyOf, Load, Matches, Told;
      var creator := Release(w);
      var e, j := LoadJournal(creator);
      if e.Crash? { return Died; }
      if e.Fault? { return Failed; }
      if caps.provider != p.provider || caps.transport != p.transport || !caps.revisionAttestation
         || (c.draft && !caps.drafts) || !c.open
      {
        return Reported(Outcome(Blocked, None, None));
      }
      var matches := MatchesOf(j.runs, c, p);
      if |matches| > 1 { return Failed; }
      if matches != [] { assert matches[0] in matches; }
      if matches != [] && matches[0].outcome.Some? {
        var previous := matches[0].outcome.value;
        if previous.nextPollAt.Some? && now < previous.nextPollAt.value { return Reported(previous); }
      }
      r := Collect(j, if matches == [] then None else Some(matches[0]), a, c, p, allowSubmit, id);
    }

    /** A worker's handle serves one tick. */
    method Release(w: nat) returns (creator: bool)
      requires Inv() && w in handles
      modifies this`handles
      ensures Inv() && seen.lock && creator == old(handles)[w] && (creator ==> log == [] || seen.anchor.Armed?)
    {
      hide Guarded, Spaced, Outstanding;
      creator := handles[w];
      handles := handles - {w};
    }

    /** What a tick tells once the retained run is known: of a failed observation, of a history that does not permit
        a new run, or of the chosen run. */
    ghost predicate Told(
      found: Option<Run>, complete: bool, a: Answers, c: Candidate, p: Policy, allowSubmit: bool, id: string, o: Outcome)
      reads this`seen, this`kept
    {
      var chosen := Chosen(found, complete, a.evidence, c, p, allowSubmit, id);
      if !a.observed then
        && o.verdict.Blocked? && o.requestId == (if found.Some? then Some(found.value.intent.id) else None)
        && (found.Some? ==> exists j :: seen.file == kept.file == Saved(j) && found.value.(outcome := Some(o)) in j.runs)
      else if chosen.None? then o == Outcome(Blocked, None, None)
      else Answered(chosen.value, a, p, allowSubmit, o)
    }

    /** The part of a tick after the retained run was found. */
    method Collect(j0: Journal, found: Option<Run>, a: Answers, c: Candidate, p: Policy, allowSubmit: bool, id: string)
      returns (r: TickResult)
      requires Inv() && seen.lock && seen.anchor.Armed? && AllBarred(log, j0) && j0.schemaVersion == 2
      requires found.Some? ==> Matches(found.value.intent, c, p)
      requires |MatchesOf(j0.runs, c, p)| <= 1
      requires found == if MatchesOf(j0.runs, c, p) == [] then None else Some(MatchesOf(j0.runs, c, p)[0])
      modifies this
      ensures Inv()
      ensures r.Reported? && r.outcome.verdict.Ready? ==>
                a.evidence.review == Some(Ready) && a.checks == Some(true) && a.last.open && p.digest.Some?
                && KeyOf(a.last, p.digest.value) == KeyOf(c, p.digest.value)
      ensures r.Reported? ==> Told(found, j0.historyComplete, a, c, p, allowSubmit, id, r.outcome)
      ensures log != old(log) ==> p.digest.Some? && a.before.open && KeyOf(a.before, p.digest.value) == KeyOf(c, p.digest.value)
      ensures log == old(log) || (allowSubmit && p.digest.Some? &&
                var k := KeyOf(c, p.digest.value);
                || log == old(log) + [Submit(k)]
                || exists at :: log == old(log) + [Submit(k), Rejected(k, at)])
    {
      var j := j0;
      var dead := Ask();
      if dead { return Died; }
      if p.digest.Some? { UniqueMatchDecides(log, j, c, p, p.digest.value); }
      if found.Some? { MatchIsSameKey(found.value, c, p); }
      if !a.observed {
        var retry: Option<nat> := *;
        var result := Outcome(Blocked, if found.Some? then Some(found.value.intent.id) else None, retry);
        if found.Some? {
          var e;
          e, j := Store(j, found.value.(outcome := Some(result)));
          if !e.Fine? { return if e.Crash? then Died else Failed; }
        }
        return Reported(result);
      }
      var evidence := a.evidence;
      var run := found;
      if run.None? && evidence.recovered.Some? && Matches(evidence.recovered.value, c, p) {
        run := Some(Run(evidence.recovered.value, Submitted, evidence.receipt, None));
        MatchIsSameKey(run.value, c, p);
      }
      if run.None? && !(allowSubmit && j.historyComplete) { return Reported(Outcome(Blocked, None, None)); }
      if p.digest.None? { return Failed; }
      if run.None? {
        run := Some(Run(Intent(1, id, c, p.digest.value, evidence.knownReviews), Deferred, None, None));
      }
      r := Conclude(j, run.value, a, c, p, allowSubmit);
    }

    /** Decide, perhaps dispatch, check that the comparison did not move, and record the outcome. */
    method Conclude(j0: Journal, run0: Run, a: Answers, c: Candidate, p: Policy, allowSubmit: bool) returns (r: TickResult)
      requires Inv() && seen.lock && seen.anchor.Armed? && AllBarred(log, j0) && j0.schemaVersion == 2 && p.digest.Some?
      requires Carries(run0, KeyOf(c, p.digest.value))
      requires run0.submission.Deferred? ==> !Outstanding(log, KeyOf(c, p.digest.value))
      modifies this
      ensures Inv()
      ensures r.Reported? ==> Answered(run0, a, p, allowSubmit, r.outcome)
      ensures r.Reported? && r.outcome.verdict.Ready? ==> a.evidence.review == Some(Ready) && a.checks == Some(true)
      ensures r.Reported? && !r.outcome.verdict.Stale? ==> Matches(run0.intent, a.last, p) && a.last.open
      ensures log != old(log) ==> Matches(run0.intent, a.before, p) && a.before.open
      ensures r.Reported? ==> r.outcome.requestId == Some(run0.intent.id)
      ensures r.Reported? && !r.outcome.verdict.Stale? && |log| == |old(log)| + 2 ==>
                log[|log| - 1].Rejected? && r.outcome.nextPollAt == Some(log[|log| - 1].retryAt)
      ensures r.Reported? && r.outcome.verdict.Pending? && allowSubmit ==>
                a.evidence.review == Some(Pending) || a.evidence.receipt.Some? || log == old(log) + [Submit(KeyOf(c, p.digest.value))]
      ensures log == old(log) || (allowSubmit &&
                var k := KeyOf(c, p.digest.value);
                || log == old(log) + [Submit(k)]
                || exists at :: log == old(log) + [Submit(k), Rejected(k, at)])
    {
      hide AllBarred, Guarded, Barred, Outstanding, Spaced, Matches, KeyOf, Inv, SaveRun;
      var j, run, e, evidence := j0, run0, Fine, a.evidence;
      var k := KeyOf(c, p.digest.value);
      var missing := run.submission.Submitted? && evidence.receipt.None?;
      if evidence.receipt.Some? { run := run.(receipt := evidence.receipt, submission := Submitted); }
      var verdict, retryAt := Pending, None;
      if evidence.review.Some? {
        verdict := evidence.review.value;
        if verdict.Ready? {
          // Required checks may block or fail.
          var dead := Ask();
          if dead { return Died; }
          if a.checks != Some(true) { verdict := Blocked; }
          if a.checks.None? { retryAt := *; }
        }
      } else if missing || run.submission.Unknown? {
        verdict := Blocked;
      } else if run.submission.Deferred? && allowSubmit {
        var stale;
        e, stale, j, run, verdict, retryAt := Dispatch(j, run, c, p, k, a.before);
        if !e.Fine? { return if e.Crash? then Died else Failed; }
        if stale { return Reported(Outcome(Stale, Some(run.intent.id), None)); }
      }
      r := Finish(j, run, k, verdict, retryAt, a.last, p);
      if r.Reported? { assert Concluded(run0, run.(outcome := Some(r.outcome)), a, p, allowSubmit, r.outcome); }
    }

    /** Look at the comparison once more and record the outcome. */
    method Finish(j0: Journal, run: Run, k: Key, verdict: Verdict, retryAt: Option<nat>, last: Candidate, p: Policy) returns (r: TickResult)
      requires Inv() && seen.lock && seen.anchor.Armed? && AllBarred(log, j0) && j0.schemaVersion == 2
      requires Carries(run, k) && (run.submission.Deferred? ==> !Outstanding(log, k))
      modifies this`seen, this`kept, this`handles
      ensures Inv()
      ensures r.Reported? ==> r.outcome == if Moved(run.intent, p, last) then Outcome(Stale, Some(run.intent.id), None)
                                           else Outcome(verdict, Some(run.intent.id), retryAt)
      ensures r.Reported? ==> exists j :: seen.file == kept.file == Saved(j) && run.(outcome := Some(r.outcome)) in j.runs
    {
      hide AllBarred, Guarded, Barred, Outstanding, Spaced, Matches, KeyOf, Inv, SaveRun;
      var e := Effect();
      if !e.Fine? { return if e.Crash? then Died else Failed; }
      var moved := !Matches(run.intent, last, p) || !last.open;
      var result := Outcome(if moved then Stale else verdict, Some(run.intent.id), if moved then None else retryAt);
      var j;
      e, j := Store(j0, run.(outcome := Some(result)));
      r := if e.Fine? then Reported(result) else if e.Crash? then Died else Failed;
    }

    /** A power loss ends every worker and leaves what was synced. */
    method PowerLoss()
      requires Inv()
      modifies this`seen, this`handles
      ensures Inv() && seen == kept
    {
      seen, handles := kept, map[];
    }

    /** Somebody deletes the journal. The anchor stays, so nobody takes this for a fresh history. */
    method LoseJournal()
      requires Inv()
      modifies this`seen, this`kept
      ensures Inv() && seen.file.Missing?
    {
      seen := seen.(file := Missing);
      var everywhere := *;
      if everywhere { kept := kept.(file := Missing); }
    }

    /** Any number of workers opening, ticking and dying in any order, with power losses and lost journals
        between: two submissions of one comparison are always separated by a rejection with a retry time. */
    method Patrol(turns: seq<(nat, Candidate, Policy, Capabilities, Answers, bool)>)
      requires Inv()
      modifies this
      ensures Inv()
      ensures forall a, b :: 0 <= a < b < |log| && log[a].Submit? && log[b] == log[a] ==>
                exists m :: a < m < b && log[m].Rejected? && log[m].key == log[a].key
    {
      for i := 0 to |turns|
        invariant Inv()
      {
        var (w, c, p, caps, answers, allow) := turns[i];
        if {
          case w !in handles => var e := Open(w);
          case w in handles =>
            var now: nat, id: string := *, *;
            var r := Tick(w, c, p, caps, answers, allow, now, id);
          case w in handles => handles := handles - {w};
          case true => PowerLoss();
          case true => LoseJournal();
        }
      }
      forall a, b | 0 <= a < b < |log| && log[a].Submit? && log[b] == log[a]
        ensures exists m :: a < m < b && log[m].Rejected? && log[m].key == log[a].key
      {
        SubmissionsAreSeparated(log, a, b);
      }
    }
  }

  lemma Reads(log: seq<Event>, d: Disk, j: Journal)
    requires AllBarred(log, j)
    ensures forall k :: Outstanding(log, k) ==> Guarded(d.(file := Saved(j)), k)
  {
    forall k | Outstanding(log, k) ensures Guarded(d.(file := Saved(j)), k) {
      assert Barred(j.runs, j.historyComplete, k);
    }
  }
}
