/** The durable stage operator: retry budgets, worker quiescing and restoration, the admission fence and
    the resume-or-refuse rules over one persisted record. Every effect may fault or be the last before a
    crash, and the service manager answers as it likes; the invariant holds at every such point. */
module Operator {

  import opened Effects

  datatype Stage = Stage(name: string, unit: string)

  datatype Config = Config(
    contractId: string, stages: seq<Stage>, maxAttempts: nat, retryDelays: seq<nat>, quiesceUnits: seq<string>)

  datatype Status = Running | Interrupted | Succeeded | Failed | Cancelled

  /** The record of `state.json`. */
  datatype Record = Record(
    runId: nat, state: Status, result: Status, config: Option<Config>,
    completed: seq<string>, failures: map<string, nat>, restoreWorkers: seq<string>, restoring: bool,
    requestIdentity: Option<nat>, currentUnit: string, currentStage: string, currentIndex: int)

  /** How the execution part of a run ended. */
  datatype Exec = Ended(outcome: Status) | Broke | Crashed

  datatype RunResult = Returned(outcome: Status) | Error | Dead

  function Stopping(e: Exit): (x: Exec)
    ensures !x.Ended?
  {
    if e.Crash? then Crashed else Broke
  }

  function Giving(e: Exit): (r: RunResult)
    ensures !r.Returned?
  {
    if e.Crash? then Dead else Error
  }

  // ---------- policy ----------

  const SERVICE: string := ".service"

  predicate UnitOk(u: string) {
    && |u| >= |SERVICE| && u[|u| - |SERVICE|..] == SERVICE && u[0] != '-'
    && forall c | c in u :: 'a' <= c <= 'z' || 'A' <= c <= 'Z' || '0' <= c <= '9' || c in "-_.@:+"
  }

  predicate ConfigOk(c: Config) {
    && c.contractId != "" && c.stages != [] && c.maxAttempts > 0 && |c.retryDelays| >= c.maxAttempts - 1
    && (forall i | 0 <= i < |c.stages| :: c.stages[i].name != "" && UnitOk(c.stages[i].unit))
    && (forall i, j | 0 <= i < j < |c.stages| :: c.stages[i].name != c.stages[j].name)
    && (forall u | u in c.quiesceUnits :: UnitOk(u))
  }

  /** The request still asks for this very record. */
  predicate Resumes(s: Record, requested: Option<nat>) {
    && requested.Some?
    && (s.restoring || s.state.Running? || s.state.Interrupted? || s.requestIdentity.None? || s.requestIdentity == requested)
  }

  /** A new run would forget something. */
  predicate Owing(s: Record) { s.restoreWorkers != [] || s.currentUnit != "" }

  predicate RestoreOnly(s: Record) { s.restoring || s.state.Succeeded? || s.state.Failed? || s.state.Cancelled? }

  // ---------- what a record satisfies ----------

  function Failures(failures: map<string, nat>, name: string): nat { if name in failures then failures[name] else 0 }

  /** Completed or out of attempts. */
  predicate Settled(c: Config, completed: seq<string>, failures: map<string, nat>, i: nat)
    requires i < |c.stages|
  {
    c.stages[i].name in completed || Failures(failures, c.stages[i].name) >= c.maxAttempts
  }

  predicate AllCompleted(c: Config, s: Record) { forall i | 0 <= i < |c.stages| :: c.stages[i].name in s.completed }

  predicate AllSettled(c: Config, s: Record) { forall i | 0 <= i < |c.stages| :: Settled(c, s.completed, s.failures, i) }

  predicate WithinBudget(s: Record) {
    s.config.Some? ==> forall n | n in s.failures :: s.failures[n] <= s.config.value.maxAttempts
  }

  /** A recorded verdict is true, and success leaves no worker behind. */
  predicate Truthful(s: Record) {
    && (s.state.Succeeded? ==> s.restoreWorkers == [])
    && (s.result.Succeeded? || s.state.Succeeded? ==> s.config.Some? && AllCompleted(s.config.value, s))
    && (s.result.Failed? || s.state.Failed? ==>
          s.config.Some? && AllSettled(s.config.value, s) && !AllCompleted(s.config.value, s))
  }

  /** An attempt at a stage whose end was seen. */
  datatype Attempted = Attempted(run: nat, stage: string, success: bool)

  /** The attempts at a stage of a run that did not succeed. */
  ghost function Misses(log: seq<Attempted>, run: nat, name: string): nat {
    if log == [] then 0
    else Misses(log[..|log| - 1], run, name) + if log[|log| - 1] == Attempted(run, name, false) then 1 else 0
  }

  /** The record follows from the attempts: a completion from one that succeeded, and each failure counted from one
      that did not. */
  ghost predicate Logged(s: Record, log: seq<Attempted>) {
    && (forall n :: n in s.completed ==> Attempted(s.runId, n, true) in log)
    && (forall n :: Failures(s.failures, n) <= Misses(log, s.runId, n))
    && (forall a :: a in log ==> a.run <= s.runId)
  }

  lemma LoggedNext(s: Record, log: seq<Attempted>, a: Attempted)
    requires Logged(s, log) && a.run == s.runId
    ensures Logged(s, log + [a])
    ensures forall n :: Misses(log + [a], s.runId, n)
                        == Misses(log, s.runId, n) + if a == Attempted(s.runId, n, false) then 1 else 0
  {
    assert (log + [a])[..|log|] == log;
  }

  /** A later run starts with a clean record. */
  lemma LoggedAnew(s: Record, t: Record, log: seq<Attempted>)
    requires Logged(s, log) && s.runId <= t.runId && t.completed == [] && t.failures == map[]
    ensures Logged(t, log)
  {
  }

  lemma NothingLogged(s: Record)
    requires s.completed == [] && s.failures == map[]
    ensures Logged(s, [])
  {
  }

  lemma LoggedFields(s: Record, t: Record, log: seq<Attempted>)
    requires Logged(s, log) && t.runId == s.runId && t.completed == s.completed && t.failures == s.failures
    ensures Logged(t, log)
  {
  }

  lemma LoggedCompletion(s: Record, log: seq<Attempted>, name: string)
    requires Logged(s, log) && Attempted(s.runId, name, true) in log
    ensures Logged(s.(completed := s.completed + [name]), log)
  {
  }

  lemma LoggedFailure(s: Record, log: seq<Attempted>, name: string)
    requires Logged(s, log) && Failures(s.failures, name) < Misses(log, s.runId, name)
    ensures Logged(s.(failures := s.failures[name := Failures(s.failures, name) + 1]), log)
  {
  }

  /** What a run goes on from: the record it resumes, or nothing. */
  ghost function Origin(r: Option<Record>, requested: Option<nat>, runId: nat): Record {
    if r.Some? && Resumes(r.value, requested) then r.value
    else Record(runId, Running, Running, None, [], map[], [], false, None, "", "", -1)
  }

  /** Between two records of a run: whatever completed had an attempt that succeeded, every success is on record,
      and every other attempt is counted as one failure. When asked to stop, the last attempt may be missing. */
  ghost predicate Accounted(before: seq<Attempted>, after: seq<Attempted>, s0: Record, s: Record, asked: bool) {
    && before <= after && s.runId == s0.runId
    && (forall a :: a in after[|before|..] ==> a.run == s0.runId && (a.success && !asked ==> a.stage in s.completed))
    && (forall n :: n in s.completed ==> n in s0.completed || Attempted(s0.runId, n, true) in after[|before|..])
    && (forall n :: n in s0.completed ==> n in s.completed)
    && (!asked ==> forall n :: Failures(s.failures, n) + Misses(before, s0.runId, n)
                               == Failures(s0.failures, n) + Misses(after, s0.runId, n))
  }

  lemma AccountedStarts(log: seq<Attempted>, s0: Record, s: Record)
    requires s.runId == s0.runId && s.completed == s0.completed && s.failures == s0.failures
    ensures Accounted(log, log, s0, s, false)
  {
  }

  lemma AccountedAsked(before: seq<Attempted>, after: seq<Attempted>, s0: Record, s: Record, a: Attempted)
    requires Accounted(before, after, s0, s, false) && a.run == s0.runId
    ensures Accounted(before, after, s0, s, true) && Accounted(before, after + [a], s0, s, true) && before <= after
  {
    assert (after + [a])[|before|..] == after[|before|..] + [a];
  }

  lemma AccountedHit(before: seq<Attempted>, after: seq<Attempted>, s0: Record, s: Record, name: string)
    requires Accounted(before, after, s0, s, false)
    ensures Accounted(before, after + [Attempted(s0.runId, name, true)], s0, s.(completed := s.completed + [name]), false)
  {
    var a := Attempted(s0.runId, name, true);
    assert (after + [a])[|before|..] == after[|before|..] + [a];
    assert (after + [a])[..|after|] == after;
  }

  lemma AccountedMiss(before: seq<Attempted>, after: seq<Attempted>, s0: Record, s: Record, t: Record, name: string)
    requires Accounted(before, after, s0, s, false)
    requires t == s.(failures := s.failures[name := Failures(s.failures, name) + 1])
    ensures Accounted(before, after + [Attempted(s0.runId, name, false)], s0, t, false)
  {
    var a := Attempted(s0.runId, name, false);
    assert (after + [a])[|before|..] == after[|before|..] + [a];
    assert (after + [a])[..|after|] == after;
  }

  /** Only the identity, the completions and the failures matter. */
  lemma AccountedLike(before: seq<Attempted>, after: seq<Attempted>, s0: Record, s: Record, t0: Record, t: Record, asked: bool)
    requires Accounted(before, after, s0, s, asked)
    requires t0.runId == s0.runId && t0.completed == s0.completed && t0.failures == s0.failures
    requires t.runId == s.runId && t.completed == s.completed && t.failures == s.failures
    ensures Accounted(before, after, t0, t, asked)
  {
  }

  /** In a record of success each stage completed before or has an attempt that succeeded since. */
  lemma EachSucceeded(
    c: Config, before: seq<Attempted>, after: seq<Attempted>, r: Option<Record>, requested: Option<nat>, runId: nat, s: Record, asked: bool)
    requires Accounted(before, after, Origin(r, requested, runId), s, asked) && Concluded(c, s, Succeeded)
    ensures forall i :: 0 <= i < |c.stages| ==>
              || Attempted(s.runId, c.stages[i].name, true) in after[|before|..]
              || (r.Some? && Resumes(r.value, requested) && c.stages[i].name in r.value.completed)
  {
    hide Resumes;
  }

  lemma AccountedThrough(a: seq<Attempted>, b: seq<Attempted>, c: seq<Attempted>, s0: Record, s1: Record, s2: Record, s3: Record, asked: bool)
    requires Accounted(a, b, s0, s1, false) && Accounted(b, c, s2, s3, asked)
    requires s2.runId == s1.runId && s2.completed == s1.completed && s2.failures == s1.failures
    ensures Accounted(a, c, s0, s3, asked) && a <= c
  {
    assert c[|a|..] == b[|a|..] + c[|b|..];
  }

  /** Whatever is owed can be resumed: any request will do. */
  predicate Recoverable(s: Record) { Owing(s) ==> s.restoring || s.state.Running? || s.state.Interrupted? }

  predicate RecordOk(s: Record) { WithinBudget(s) && Truthful(s) && Recoverable(s) }

  function Without(list: seq<string>, unit: string): (r: seq<string>)
    ensures forall u :: u in r <==> u in list && u != unit
    ensures list == [] ==> r == []
  {
    if list == [] then [] else (if list[0] == unit then [] else [list[0]]) + Without(list[1..], unit)
  }

  lemma SomeMember(list: seq<string>)
    ensures list == [] || exists u :: u in list
  {
    if list != [] {
      assert list[0] in list;
    }
  }

  /** Progress on one stage: completions and failure counts only grow, and only that stage completes. */
  ghost predicate Progress(s0: Record, s: Record, name: string) {
    && s == s0.(completed := s.completed, failures := s.failures)
    && (forall n :: n in s0.completed ==> n in s.completed)
    && (forall n :: n in s.completed ==> n in s0.completed || n == name)
    && (forall n :: Failures(s0.failures, n) <= Failures(s.failures, n))
  }

  lemma SettledKept(c: Config, s0: Record, s: Record, name: string, upTo: nat)
    requires upTo <= |c.stages| && Progress(s0, s, name)
    requires forall j :: 0 <= j < upTo ==> Settled(c, s0.completed, s0.failures, j)
    ensures forall j :: 0 <= j < upTo ==> Settled(c, s.completed, s.failures, j)
  {
    forall j | 0 <= j < upTo ensures Settled(c, s.completed, s.failures, j) {
      assert Settled(c, s0.completed, s0.failures, j);
      assert Failures(s0.failures, c.stages[j].name) <= Failures(s.failures, c.stages[j].name);
    }
  }

  /** The same run for the same request, and no completion is forgotten. */
  predicate Same(s0: Record, s: Record) {
    s.runId == s0.runId && s.requestIdentity == s0.requestIdentity && forall n | n in s0.completed :: n in s.completed
  }

  lemma SameFields(s0: Record, a: Record, b: Record)
    requires Same(s0, a) && b.runId == a.runId && b.requestIdentity == a.requestIdentity
    requires forall n :: n in a.completed ==> n in b.completed
    ensures Same(s0, b)
  {
  }

  lemma SameThrough(a: Record, b: Record, c: Record)
    ensures Same(a, a)
    ensures Same(a, b) && Same(b, c) ==> Same(a, c)
  {
  }

  /** What a finished run left on record. */
  predicate Concluded(c: Config, s: Record, outcome: Status) {
    && s.config == Some(c) && s.state == s.result == outcome && !s.restoring && !Owing(s)
    && (outcome.Succeeded? ==> AllCompleted(c, s))
    && (outcome.Failed? ==> AllSettled(c, s) && !AllCompleted(c, s))
  }

  /** Verdicts depend on the completions and the counts only. */
  lemma FieldsKeepTallies(c: Config, s0: Record, s: Record)
    requires s.completed == s0.completed && s.failures == s0.failures && s.config == s0.config
    ensures AllCompleted(c, s) == AllCompleted(c, s0) && AllSettled(c, s) == AllSettled(c, s0)
    ensures WithinBudget(s) == WithinBudget(s0)
  {
  }

  lemma CompletedIsSettled(c: Config, s: Record, i: nat)
    requires i < |c.stages| && (c.stages[i].name in s.completed || Failures(s.failures, c.stages[i].name) >= c.maxAttempts)
    ensures Settled(c, s.completed, s.failures, i)
  {
  }

  lemma NamesDiffer(c: Config)
    requires ConfigOk(c)
    ensures forall i, j :: 0 <= i < j < |c.stages| ==> c.stages[i].name != c.stages[j].name
  {
  }

  lemma Tallies(c: Config, s: Record)
    ensures AllCompleted(c, s) <==> forall j :: 0 <= j < |c.stages| ==> c.stages[j].name in s.completed
    ensures AllSettled(c, s) <==> forall j :: 0 <= j < |c.stages| ==> Settled(c, s.completed, s.failures, j)
  {
  }

  lemma ProgressStarts(s: Record, name: string)
    ensures Progress(s, s, name)
  {
  }

  lemma ProgressKeeps(s0: Record, s: Record, name: string)
    requires Progress(s0, s, name)
    ensures s == s0.(completed := s.completed, failures := s.failures)
    ensures forall n :: n in s0.completed ==> n in s.completed
    ensures forall n :: n in s.completed ==> n in s0.completed || n == name
  {
  }

  lemma WithCompletion(s0: Record, s: Record, name: string)
    requires Progress(s0, s, name) && WithinBudget(s) && s.state.Running? && s.result.Running?
    ensures var s' := s.(completed := s.completed + [name]); Progress(s0, s', name) && RecordOk(s')
  {
  }

  lemma WithFailure(c: Config, s0: Record, s: Record, name: string)
    requires Progress(s0, s, name) && WithinBudget(s) && s.state.Running? && s.result.Running?
    requires s.config == Some(c) && Failures(s.failures, name) < c.maxAttempts
    ensures var s' := s.(failures := s.failures[name := Failures(s.failures, name) + 1]);
            && Progress(s0, s', name) && RecordOk(s')
            && Failures(s'.failures, name) == Failures(s.failures, name) + 1
  {
  }

  class Operator {
    /** The record as read back, and as a power loss would leave it. */
    var saved: Option<Record>
    var durable: Option<Record>
    /** The admission fence, as seen and as a power loss would leave it. */
    var sentinel: bool
    var sentinelKept: bool
    /** The request marker, by its file identity, as seen and as a power loss would leave it. */
    var request: Option<nat>
    var requestKept: Option<nat>
    /** Stage units that may be running. */
    ghost var mayRun: set<string>
    /** Workers this operator stopped and has not restored since. */
    ghost var stopped: set<string>
    /** Every run and stage durably recorded as completed. */
    ghost var finished: set<(nat, string)>
    /** A user withdrew the request marker, or a power loss took one that was never synced, and no run has begun
        or resumed since. */
    ghost var lost: bool
    /** Every attempt whose end was seen. */
    ghost var attempts: seq<Attempted>
    /** Whether the last run was asked to stop. */
    ghost var cancelled: bool

    /** Units the manager reported inactive since the last run began, but for workers restored since. */
    ghost var idle: set<string>

    /** `log` is of the attempts that led to the record, and the stage that was current may still run behind the fence. */
    constructor (saved: Option<Record>, sentinel: bool, request: Option<nat>, ghost log: seq<Attempted>, ghost running: bool)
      requires if saved.Some? then RecordOk(saved.value) && Logged(saved.value, log) else log == []
      requires running ==> sentinel && saved.Some? && saved.value.currentUnit != "" && saved.value.currentStage !in saved.value.completed
      ensures Inv() && this.saved == saved && this.request == request && attempts == log
      ensures mayRun == if running then {saved.value.currentUnit} else {}
      ensures stopped == if saved.Some? then set u | u in saved.value.restoreWorkers else {}
    {
      attempts, cancelled, idle := log, false, {};
      mayRun := if running then {saved.value.currentUnit} else {};
      stopped := if saved.Some? then set u | u in saved.value.restoreWorkers else {};
      this.saved, this.durable := saved, saved;
      this.sentinel, this.sentinelKept, this.request, this.requestKept := sentinel, sentinel, request, request;
      lost := request.None?;
      finished := if saved.Some? then set n | n in saved.value.completed :: (saved.value.runId, n) else {};
    }

    /** What a record must account for: the stage that may run, every stopped worker, every completion. */
    ghost predicate Covers(s: Record)
      reads this`mayRun, this`stopped, this`finished, this`attempts
    {
      && RecordOk(s) && Logged(s, attempts)
      && (mayRun != {} ==> mayRun == {s.currentUnit} && s.currentUnit != "" && s.currentStage !in s.completed)
      && (forall u :: u in stopped ==> u in s.restoreWorkers)
      && (forall p :: p in finished ==> p.0 < s.runId || (p.0 == s.runId && p.1 in s.completed))
    }

    ghost predicate Found(r: Option<Record>)
      reads this`mayRun, this`stopped, this`finished, this`attempts
    {
      match r
      case None => mayRun == {} && stopped == {} && finished == {} && attempts == []
      case Some(s) => Covers(s)
    }

    /** Something is owed by a record that a start may find. */
    ghost predicate Owed()
      reads this`saved, this`durable
    {
      (saved.Some? && Owing(saved.value)) || (durable.Some? && Owing(durable.value))
    }

    /** Whichever record the next start finds, it accounts for everything, a stage that may be running is behind a
        durable fence, and whatever is owed has its request unless that was lost. */
    ghost predicate Inv()
      reads this`mayRun, this`stopped, this`finished, this`attempts, this`saved, this`durable
      reads this`sentinel, this`sentinelKept, this`request, this`lost
    {
      && Found(saved) && Found(durable) && (saved.None? ==> durable.None?)
      && (mayRun != {} ==> sentinel && sentinelKept)
      && (Owed() && !lost ==> request.Some?)
    }

    /** The record in memory may be saved at any time. */
    ghost predicate Mem(c: Config, s: Record)
      reads this`mayRun, this`stopped, this`finished, this`attempts, this`saved, this`durable
      reads this`sentinel, this`sentinelKept, this`request, this`lost
    {
      Inv() && s.config == Some(c) && Covers(s) && request.Some?
    }

    lemma MemAt(c: Config, s: Record, stage: Stage, index: nat)
      requires Mem(c, s) && mayRun == {} && s.state.Running?
      ensures Mem(c, s.(currentStage := stage.name, currentUnit := stage.unit, currentIndex := index))
    {
      hide Logged;
      FieldsKeepTallies(c, s, s.(currentStage := stage.name, currentUnit := stage.unit, currentIndex := index));
      LoggedFields(s, s.(currentStage := stage.name, currentUnit := stage.unit, currentIndex := index), attempts);
    }

    lemma NotFinished(c: Config, s: Record, name: string)
      requires Mem(c, s) && name !in s.completed
      ensures (s.runId, name) !in finished
    {
    }

    lemma MemWithCompletion(c: Config, s0: Record, s: Record, name: string)
      requires Mem(c, s) && Progress(s0, s, name) && s.state.Running? && s.result.Running? && mayRun == {}
      requires Attempted(s.runId, name, true) in attempts
      ensures var s' := s.(completed := s.completed + [name]); Mem(c, s') && Progress(s0, s', name)
    {
      hide Truthful, WithinBudget, Progress, Failures, Logged;
      assert WithinBudget(s);
      WithCompletion(s0, s, name);
      LoggedCompletion(s, attempts, name);
    }

    lemma MemWithFailure(c: Config, s0: Record, s: Record, name: string)
      requires Mem(c, s) && Progress(s0, s, name) && s.state.Running? && s.result.Running?
      requires Failures(s.failures, name) < c.maxAttempts
      requires Failures(s.failures, name) < Misses(attempts, s.runId, name)
      ensures var s' := s.(failures := s.failures[name := Failures(s.failures, name) + 1]);
              && Mem(c, s') && Progress(s0, s', name)
              && Failures(s'.failures, name) == Failures(s.failures, name) + 1
    {
      hide Truthful, WithinBudget, Progress, Failures, Logged;
      assert WithinBudget(s);
      WithFailure(c, s0, s, name);
      LoggedFailure(s, attempts, name);
    }

    // ---------- effects ----------

    /** Replace the record atomically. A fault may leave either record visible, and the old one durable. */
    method Write(s: Record) returns (e: Exit)
      requires Inv() && Covers(s) && (Owing(s) ==> request.Some?)
      modifies this`saved, this`durable, this`finished
      ensures Inv() && Covers(s)
      ensures e.Fine? ==> saved == durable == Some(s)
      ensures saved == old(saved) || saved == Some(s)
      ensures durable == old(durable) || durable == Some(s)
      ensures finished == old(finished) + (if e.Fine? then set n | n in s.completed :: (s.runId, n) else {})
    {
      hide RecordOk, Logged;
      e := Attempt();
      var renamed, synced := *, *;
      if e.Fine? || renamed { saved := Some(s); }
      if e.Fine? || (renamed && synced) { durable := Some(s); }
      if e.Fine? { finished := finished + set n | n in s.completed :: (s.runId, n); }
    }

    method Save(c: Config, s: Record) returns (e: Exit)
      requires Mem(c, s)
      modifies this`saved, this`durable, this`finished
      ensures Mem(c, s)
      ensures e.Fine? ==> saved == durable == Some(s)
    {
      e := Write(s);
    }

    /** Create the fence, or find it, and sync it. */
    method SetSentinel() returns (e: Exit)
      modifies this`sentinel, this`sentinelKept
      ensures e.Fine? ==> sentinel && sentinelKept
      ensures (old(sentinel) ==> sentinel) && (old(sentinelKept) ==> sentinelKept)
    {
      e := Attempt();
      var created, synced := *, *;
      sentinel := sentinel || e.Fine? || created;
      sentinelKept := sentinelKept || e.Fine? || (sentinel && synced);
    }

    /** The fence falls only when no stage may be running. One that is not there counts as removed, unsynced. */
    method RemoveSentinel() returns (e: Exit)
      requires mayRun == {}
      modifies this`sentinel, this`sentinelKept
      ensures e.Fine? ==> !sentinel && (old(sentinel) ==> !sentinelKept)
    {
      e := Attempt();
      if !sentinel { return; }
      var removed, synced := *, *;
      if e.Fine? || removed { sentinel := false; }
      if e.Fine? || (removed && synced) { sentinelKept := false; }
    }

    /** Create the request marker and sync it if there is none; one that is there stays as it is, synced or not. */
    method SetRequest(identity: nat) returns (e: Exit)
      requires Inv()
      modifies this`request, this`requestKept, this`lost
      ensures Inv()
      ensures old(request).Some? ==> request == old(request) && requestKept == old(requestKept)
      ensures e.Fine? ==> request.Some? && !lost
      ensures e.Fine? && old(request).None? ==> request == requestKept == Some(identity)
    {
      e := Attempt();
      if request.None? {
        var created, synced := *, *;
        if e.Fine? || created { request := Some(identity); }
        if e.Fine? || (created && synced) { requestKept := Some(identity); }
      }
      if e.Fine? { lost := false; }
    }

    /** The request goes only when nothing is owed. One that is not there counts as removed, unsynced. */
    method RemoveRequest() returns (e: Exit)
      requires Inv() && !Owed()
      modifies this`request, this`requestKept
      ensures Inv()
      ensures e.Fine? ==> request.None? && (old(request).Some? ==> requestKept.None?)
    {
      e := Attempt();
      if request.None? { return; }
      var removed, synced := *, *;
      if e.Fine? || removed { request := None; }
      if e.Fine? || (removed && synced) { requestKept := None; }
    }

    /** Ask whether a unit is active; the answer is the manager's, and only it tells that a unit does not run. */
    method Active(unit: string) returns (e: Exit, active: bool)
      modifies this`mayRun, this`idle
      ensures mayRun == if e.Fine? && !active then old(mayRun) - {unit} else old(mayRun)
      ensures idle == if e.Fine? && !active then old(idle) + {unit} else old(idle)
    {
      e := Attempt();
      active := *;
      if e.Fine? && !active { mayRun, idle := mayRun - {unit}, idle + {unit}; }
    }

    /** Every worker of the policy was reported inactive and not restored since. */
    ghost predicate Quiet(c: Config)
      reads this`idle
    {
      forall u :: u in c.quiesceUnits ==> u in idle
    }

    /** Stop a unit and confirm that it is not active. */
    method Stop(unit: string) returns (e: Exit)
      modifies this`mayRun, this`idle
      ensures mayRun == old(mayRun) || mayRun == old(mayRun) - {unit}
      ensures old(idle) <= idle && (e.Fine? ==> unit in idle && mayRun == old(mayRun) - {unit})
      ensures !e.Fine? ==> mayRun == old(mayRun)
    {
      e := Attempt();
      if !e.Fine? { return; }
      var active;
      e, active := Active(unit);
      if e.Fine? && active { e := Fault; }
    }

    /** Stop the stage and confirm that it is not active. */
    method StopStage(c: Config, s: Record, unit: string) returns (e: Exit)
      requires Mem(c, s) && mayRun <= {unit}
      modifies this`mayRun, this`idle
      ensures Mem(c, s) && mayRun == if e.Fine? then {} else old(mayRun)
      ensures old(Quiet(c)) ==> Quiet(c)
    {
      hide RecordOk, Logged;
      e := Stop(unit);
    }

    /** Stop a worker, which must be recorded first, and confirm that it is not active. It counts as stopped from the
        attempt on. */
    method StopWorker(c: Config, s: Record, unit: string) returns (e: Exit)
      requires Mem(c, s) && saved == durable == Some(s) && unit in s.restoreWorkers && mayRun == {}
      modifies this`stopped, this`mayRun, this`idle
      ensures stopped == old(stopped) + {unit} && Mem(c, s) && mayRun == {}
      ensures old(idle) <= idle && (e.Fine? ==> unit in idle)
    {
      hide RecordOk, Logged;
      stopped := stopped + {unit};
      e := Stop(unit);
    }

    /** Start a worker again; whether it runs then is the manager's to say. */
    method Restore(unit: string) returns (e: Exit)
      modifies this`stopped, this`idle
      ensures stopped == if e.Fine? then old(stopped) - {unit} else old(stopped)
      ensures idle == old(idle) - {unit}
    {
      e := Attempt();
      idle := idle - {unit};
      if e.Fine? { stopped := stopped - {unit}; }
    }

    /** Start stage `i` and wait. It may start only behind both markers, durably recorded as current, never
        after it was durably completed, within its budget, after every earlier stage is settled and every worker
        of the policy stopped. */
    method StartStage(c: Config, s: Record, i: nat) returns (e: Exit, success: bool)
      requires ConfigOk(c) && i < |c.stages| && Mem(c, s) && saved == durable == Some(s) && mayRun == {}
      requires sentinel && sentinelKept && request.Some?
      requires s.currentUnit == c.stages[i].unit && s.currentStage == c.stages[i].name
      requires s.currentStage !in s.completed && (s.runId, c.stages[i].name) !in finished && Quiet(c)
      requires Failures(s.failures, c.stages[i].name) < c.maxAttempts
      requires forall j :: 0 <= j < i ==> Settled(c, s.completed, s.failures, j)
      modifies this`mayRun, this`attempts
      ensures Mem(c, s) && !e.Fault?
      ensures mayRun <= {c.stages[i].unit}
      ensures e.Fine? && success ==> mayRun == {}
      ensures attempts == old(attempts) + if e.Fine? then [Attempted(s.runId, c.stages[i].name, success)] else []
    {
      hide RecordOk, Logged;
      mayRun := {c.stages[i].unit};
      var crash;
      success, crash := *, *;
      if crash { return Crash, false; }
      if success { mayRun := {}; }
      SeenByAll(c, s, Attempted(s.runId, c.stages[i].name, success));
      attempts := attempts + [Attempted(s.runId, c.stages[i].name, success)];
      e := Fine;
    }

    lemma SeenByAll(c: Config, s: Record, a: Attempted)
      requires Mem(c, s) && saved == durable == Some(s) && a.run == s.runId
      ensures Logged(s, attempts + [a])
    {
      hide Logged;
      LoggedNext(s, attempts, a);
    }

    /** Whether the run was asked to stop. */
    method Asked() returns (asked: bool)
      modifies this`cancelled
      ensures cancelled == (old(cancelled) || asked)
    {
      asked := *;
      cancelled := cancelled || asked;
    }

    // ---------- the execution part ----------

    /** Finish a stage a crash left behind: confirm that it stopped, and record that. */
    method StopLeftover(c: Config, s0: Record) returns (e: Exit, s: Record)
      requires Mem(c, s0) && saved == durable == Some(s0)
      modifies this`mayRun, this`idle, this`saved, this`durable, this`finished
      ensures Mem(c, s) && s == s0.(currentUnit := s.currentUnit)
      ensures e.Fine? ==> mayRun == {} && saved == durable == Some(s)
    {
      s := s0;
      e := Fine;
      if s.currentUnit != "" && s.currentStage !in s.completed {
        e := StopStage(c, s, s.currentUnit);
        if !e.Fine? { return; }
        s := s.(currentUnit := "");
        e := Save(c, s);
      }
    }

    /** Record a worker if it is active, and stop a recorded one. */
    method QuiesceOne(c: Config, s0: Record, unit: string) returns (e: Exit, s: Record)
      requires Mem(c, s0) && saved == durable == Some(s0) && mayRun == {} && s0.state.Running? && s0.result.Running?
      modifies this`saved, this`durable, this`stopped, this`finished, this`mayRun, this`idle
      ensures Mem(c, s) && s == s0.(restoreWorkers := s.restoreWorkers) && mayRun == {}
      ensures forall u :: u in s0.restoreWorkers ==> u in s.restoreWorkers
      ensures forall u :: u in s.restoreWorkers ==> u in s0.restoreWorkers || u == unit
      ensures old(stopped) <= stopped && old(idle) <= idle
      ensures e.Fine? ==> saved == durable == Some(s) && unit in idle && (unit in s.restoreWorkers ==> unit in stopped)
    {
      hide AllCompleted, AllSettled, WithinBudget, Logged;
      s := s0;
      e := Fine;
      if unit !in s.restoreWorkers {
        var active;
        e, active := Active(unit);
        if !e.Fine? { return; }
        if active {
          s := s.(restoreWorkers := s.restoreWorkers + [unit]);
          FieldsKeepTallies(c, s0, s);
          LoggedFields(s0, s, attempts);
          e := Save(c, s);
          if !e.Fine? { return; }
        }
      }
      if unit in s.restoreWorkers {
        e := StopWorker(c, s, unit);
        if !e.Fine? { return; }
      }
    }

    /** Record each active worker before stopping it. */
    method Quiesce(c: Config, s0: Record) returns (e: Exit, s: Record)
      requires Mem(c, s0) && saved == durable == Some(s0) && mayRun == {} && s0.state.Running? && s0.result.Running?
      modifies this`saved, this`durable, this`stopped, this`finished, this`mayRun, this`idle
      ensures Mem(c, s) && s == s0.(restoreWorkers := s.restoreWorkers) && mayRun == {}
      ensures e.Fine? ==> saved == durable == Some(s) && Quiet(c)
      ensures e.Fine? ==> forall u :: u in c.quiesceUnits && u in s.restoreWorkers ==> u in stopped
      ensures forall u :: u in s0.restoreWorkers ==> u in s.restoreWorkers
    {
      hide AllCompleted, AllSettled;
      s := s0;
      for k := 0 to |c.quiesceUnits|
        invariant Mem(c, s) && saved == durable == Some(s) && s == s0.(restoreWorkers := s.restoreWorkers) && mayRun == {}
        invariant forall j :: 0 <= j < k ==> c.quiesceUnits[j] in idle
        invariant forall u :: u in s0.restoreWorkers ==> u in s.restoreWorkers
        invariant forall j :: 0 <= j < k && c.quiesceUnits[j] in s.restoreWorkers ==> c.quiesceUnits[j] in stopped
      {
        e, s := QuiesceOne(c, s, c.quiesceUnits[k]);
        if !e.Fine? { return; }
      }
      e := Fine;
    }

    /** Record the completion of a stage. */
    method Complete(c: Config, s0: Record, s1: Record, name: string) returns (x: Exec, s: Record)
      requires Mem(c, s1) && Progress(s0, s1, name) && s1.state.Running? && s1.result.Running? && mayRun == {}
      requires Attempted(s1.runId, name, true) in attempts
      modifies this`saved, this`durable, this`finished
      ensures Mem(c, s) && Progress(s0, s, name) && s == s1.(completed := s1.completed + [name])
      ensures x.Ended? ==> x == Ended(Succeeded) && saved == durable == Some(s)
    {
      hide *;
      MemWithCompletion(c, s0, s1, name);
      s := s1.(completed := s1.completed + [name]);
      var e := Save(c, s);
      if !e.Fine? { return Stopping(e), s; }
      e := Attempt();
      x := if e.Fine? then Ended(Succeeded) else Stopping(e);
    }

    /** Count a failed attempt, and stop the unit before any retry. */
    method CountFailure(c: Config, s0: Record, s1: Record, name: string, unit: string) returns (e: Exit, s: Record)
      requires Mem(c, s1) && Progress(s0, s1, name) && s1.state.Running? && s1.result.Running? && mayRun <= {unit}
      requires Failures(s1.failures, name) < c.maxAttempts
      requires Failures(s1.failures, name) < Misses(attempts, s1.runId, name)
      modifies this`saved, this`durable, this`mayRun, this`finished, this`idle
      ensures old(Quiet(c)) ==> Quiet(c)
      ensures Mem(c, s) && Progress(s0, s, name) && s.completed == s1.completed
      ensures s == s1.(failures := s1.failures[name := Failures(s1.failures, name) + 1])
      ensures Failures(s.failures, name) == Failures(s1.failures, name) + 1
      ensures e.Fine? ==> mayRun == {} && saved == durable == Some(s)
    {
      hide *;
      MemWithFailure(c, s0, s1, name);
      s := s1.(failures := s1.failures[name := Failures(s1.failures, name) + 1]);
      e := Save(c, s);
      if !e.Fine? { return; }
      e := Attempt();
      if !e.Fine? { return; }
      e := StopStage(c, s, unit);
    }

    /** What one more attempt permits: a completion when it succeeded, one more failure otherwise. */
    lemma TriedNext(c: Config, s: Record, before: seq<Attempted>, name: string, success: bool)
      requires Mem(c, s) && attempts == before + [Attempted(s.runId, name, success)] && Logged(s, before)
      ensures success ==> Attempted(s.runId, name, true) in attempts
      ensures !success ==> Failures(s.failures, name) < Misses(attempts, s.runId, name)
    {
      LoggedNext(s, before, Attempted(s.runId, name, success));
    }

    lemma MemIsLogged(c: Config, s: Record)
      requires Mem(c, s)
      ensures Logged(s, attempts)
    {
    }

    /** One attempt at stage `i`. It ends the stage by a completion, by a request to stop or by an error; otherwise it
        was a failure, which is counted. */
    method Try(c: Config, s0: Record, s1: Record, i: nat, ghost before: seq<Attempted>) returns (ended: bool, x: Exec, s: Record)
      requires ConfigOk(c) && i < |c.stages| && Mem(c, s1) && mayRun == {} && sentinel && sentinelKept && request.Some?
      requires s0.currentUnit == c.stages[i].unit && s0.currentStage == c.stages[i].name
      requires c.stages[i].name !in s1.completed && s0.state.Running? && s0.result.Running?
      requires forall j :: 0 <= j < i ==> Settled(c, s0.completed, s0.failures, j)
      requires Progress(s0, s1, c.stages[i].name) && Failures(s1.failures, c.stages[i].name) < c.maxAttempts
      requires Accounted(before, attempts, s0, s1, false) && !cancelled && Quiet(c)
      modifies this`saved, this`durable, this`mayRun, this`finished, this`attempts, this`cancelled, this`idle
      ensures Quiet(c)
      ensures Mem(c, s) && Progress(s0, s, c.stages[i].name) && Accounted(before, attempts, s0, s, cancelled)
      ensures cancelled <==> ended && x == Ended(Interrupted)
      ensures ended ==> (x.Ended? ==> x.outcome.Succeeded? || x.outcome.Interrupted?)
      ensures ended && x == Ended(Succeeded) ==> mayRun == {} && c.stages[i].name in s.completed && saved == durable == Some(s)
      ensures !ended ==> mayRun == {} && saved == durable == Some(s) && s.completed == s1.completed
                         && Failures(s.failures, c.stages[i].name) == Failures(s1.failures, c.stages[i].name) + 1
    {
      hide *;
      SettledKept(c, s0, s1, c.stages[i].name, i);
      ProgressKeeps(s0, s1, c.stages[i].name);
      ghost var tried := attempts;
      var name, unit := c.stages[i].name, c.stages[i].unit;
      AccountedAsked(before, tried, s0, s1, Attempted(s0.runId, name, false));
      AccountedAsked(before, tried, s0, s1, Attempted(s0.runId, name, true));
      ended, s := true, s1;
      var asked := Asked();
      if asked { return true, Ended(Interrupted), s; }
      var e := Save(c, s);
      if !e.Fine? { return true, Stopping(e), s; }
      NotFinished(c, s, name);
      MemIsLogged(c, s);
      var success;
      e, success := StartStage(c, s, i);
      assert e.Fine? || attempts == tried;
      if !e.Fine? { return true, Stopping(e), s; }
      asked := Asked();
      if asked { return true, Ended(Interrupted), s; }
      TriedNext(c, s, tried, name, success);
      if success {
        AccountedHit(before, tried, s0, s, name);
        x, s := Complete(c, s0, s, name);
        CompletedNow(s1, s, name);
      } else {
        e, s := CountFailure(c, s0, s, name, unit);
        AccountedMiss(before, tried, s0, s1, s, name);
        ended, x := !e.Fine?, Stopping(e);
      }
    }

    lemma CompletedNow(s1: Record, s: Record, name: string)
      requires s == s1.(completed := s1.completed + [name])
      ensures name in s.completed
    {
    }

    /** Attempt stage `i` until it completes or its budget is spent. Whatever was attempted is accounted for. */
    method RunStage(c: Config, s0: Record, i: nat) returns (x: Exec, s: Record)
      requires ConfigOk(c) && i < |c.stages| && Mem(c, s0) && mayRun == {} && sentinel && sentinelKept && request.Some?
      requires s0.currentUnit == c.stages[i].unit && s0.currentStage == c.stages[i].name
      requires c.stages[i].name !in s0.completed && s0.state.Running? && s0.result.Running?
      requires forall j :: 0 <= j < i ==> Settled(c, s0.completed, s0.failures, j)
      requires !cancelled && Quiet(c)
      modifies this`saved, this`durable, this`mayRun, this`finished, this`attempts, this`cancelled, this`idle
      ensures Quiet(c)
      ensures Mem(c, s) && Progress(s0, s, c.stages[i].name)
      ensures Accounted(old(attempts), attempts, s0, s, cancelled)
      ensures cancelled <==> x == Ended(Interrupted)
      ensures x == Ended(Succeeded) ==> saved == durable == Some(s)
      ensures x == Ended(Succeeded) ==> mayRun == {} && c.stages[i].name in s.completed
      ensures x == Ended(Failed) ==> mayRun == {} && c.stages[i].name !in s.completed && Settled(c, s.completed, s.failures, i)
      ensures x.Ended? ==> x.outcome.Succeeded? || x.outcome.Failed? || x.outcome.Interrupted?
    {
      assert |c.retryDelays| >= c.maxAttempts - 1;
      hide *;
      ProgressStarts(s0, c.stages[i].name);
      AccountedStarts(attempts, s0, s0);
      s := s0;
      var name := c.stages[i].name;
      var e := Save(c, s);
      if !e.Fine? { return Stopping(e), s; }
      var failures := Failures(s.failures, name);
      while failures < c.maxAttempts
        invariant Mem(c, s) && mayRun == {} && Progress(s0, s, name) && saved == durable == Some(s)
        invariant failures == Failures(s.failures, name) && name !in s.completed
        invariant Accounted(old(attempts), attempts, s0, s, false) && !cancelled && Quiet(c)
        decreases c.maxAttempts - failures
      {
        var ended;
        ended, x, s := Try(c, s0, s, i, old(attempts));
        if ended { return; }
        failures := failures + 1;
        if failures < c.maxAttempts {
          // Wait for this retry's delay: the index is always in range.
          var delay := c.retryDelays[failures - 1];
        }
      }
      CompletedIsSettled(c, s, i);
      e := Attempt();
      x := if e.Fine? then Ended(Failed) else Stopping(e);
    }

    /** All stages in order; a stage that spent its budget fails the run but not the later stages. */
    method RunStages(c: Config, s0: Record) returns (x: Exec, s: Record)
      requires ConfigOk(c) && Mem(c, s0) && mayRun == {} && sentinel && sentinelKept && request.Some?
      requires s0.state.Running? && s0.result.Running? && !cancelled && Quiet(c)
      modifies this`saved, this`durable, this`mayRun, this`finished, this`attempts, this`cancelled, this`idle
      ensures Accounted(old(attempts), attempts, s0, s, cancelled) && (cancelled <==> x == Ended(Interrupted))
      ensures old(attempts) <= attempts
      ensures Mem(c, s) && s.state.Running? && s.restoreWorkers == s0.restoreWorkers && Same(s0, s)
      ensures x == Ended(Succeeded) ==> AllCompleted(c, s)
      ensures x == Ended(Failed) ==> !AllCompleted(c, s) && AllSettled(c, s)
      ensures x != Ended(Cancelled) && x != Ended(Running)
    {
      hide *;
      NamesDiffer(c);
      SameThrough(s0, s0, s0);
      AccountedStarts(attempts, s0, s0);
      s := s0;
      var failed := false;
      for i := 0 to |c.stages|
        invariant Mem(c, s) && mayRun == {} && s.state.Running? && s.result.Running?
        invariant s.restoreWorkers == s0.restoreWorkers && Same(s0, s)
        invariant forall j :: 0 <= j < i ==> Settled(c, s.completed, s.failures, j)
        invariant failed <==> exists j :: 0 <= j < i && c.stages[j].name !in s.completed
        invariant Accounted(old(attempts), attempts, s0, s, false) && !cancelled && old(attempts) <= attempts && Quiet(c)
      {
        AccountedAsked(old(attempts), attempts, s0, s, Attempted(s0.runId, c.stages[i].name, false));
        var asked := Asked();
        if asked { return Ended(Interrupted), s; }
        var stage := c.stages[i];
        ghost var last := s;
        s := s.(currentStage := stage.name, currentUnit := stage.unit, currentIndex := i);
        MemAt(c, last, stage, i);
        SameFields(s0, last, s);
        AccountedStarts(attempts, last, s);
        AccountedThrough(old(attempts), attempts, attempts, s0, last, last, s, false);
        if stage.name in s.completed {
          CompletedIsSettled(c, s, i);
          var e := Attempt();
          if !e.Fine? { return Stopping(e), s; }
        } else {
          ghost var before, tried := s, attempts;
          x, s := RunStage(c, s, i);
          AccountedThrough(old(attempts), tried, attempts, s0, before, before, s, cancelled);
          ProgressKeeps(before, s, stage.name);
          SameFields(s0, before, s);
          if !x.Ended? || x.outcome.Interrupted? { return; }
          SettledKept(c, before, s, stage.name, i);
          if x.outcome.Succeeded? { CompletedIsSettled(c, s, i); }
          failed := failed || x.outcome.Failed?;
        }
      }
      Tallies(c, s);
      x := Ended(if failed then Failed else Succeeded);
    }

    method Fence(c: Config, s: Record) returns (e: Exit)
      requires Mem(c, s)
      modifies this`sentinel, this`sentinelKept
      ensures Mem(c, s) && (e.Fine? ==> sentinel && sentinelKept)
    {
      hide Covers;
      e := SetSentinel();
    }

    /** A recorded result tells the truth, and markers come with every record in memory. */
    lemma ResultIsTrue(c: Config, s: Record)
      requires Mem(c, s)
      ensures s.result.Succeeded? ==> AllCompleted(c, s)
      ensures s.result.Failed? ==> !AllCompleted(c, s) && AllSettled(c, s)
      ensures request.Some?
    {
      hide AllCompleted, AllSettled;
    }

    /** The whole execution part: stop what a crash left running, quiesce, fence, announce, run. */
    method Execute(c: Config, s0: Record) returns (x: Exec, s: Record)
      requires ConfigOk(c) && Mem(c, s0) && saved == durable == Some(s0)
      requires (!RestoreOnly(s0) ==> s0.state.Running? && s0.result.Running?) && !cancelled
      modifies this`saved, this`durable, this`sentinel, this`sentinelKept, this`mayRun, this`stopped, this`finished
      modifies this`attempts, this`cancelled, this`idle
      ensures Mem(c, s) && Same(s0, s)
      ensures Accounted(old(attempts), attempts, s0, s, cancelled) && old(attempts) <= attempts
      ensures x != Ended(Running) && (x == Ended(Interrupted) && !cancelled ==> RestoreOnly(s0) && s0.result.Interrupted?)
      ensures RestoreOnly(s0) ==> attempts == old(attempts) && s.completed == s0.completed && (x.Ended? ==> x.outcome == s0.result)
      ensures x == Ended(Succeeded) ==> AllCompleted(c, s)
      ensures x == Ended(Failed) ==> !AllCompleted(c, s) && AllSettled(c, s)
      ensures s.state.Running? || (s.state == s0.state && s.restoreWorkers == s0.restoreWorkers)
    {
      hide *;
      AccountedStarts(attempts, s0, s0);
      SameThrough(s0, s0, s0);
      var e;
      e, s := StopLeftover(c, s0);
      SameFields(s0, s0, s);
      AccountedStarts(attempts, s0, s);
      if !e.Fine? { return Stopping(e), s; }
      if !RestoreOnly(s0) {
        e, s := Quiesce(c, s);
        SameFields(s0, s0, s);
        AccountedStarts(attempts, s0, s);
        if !e.Fine? { return Stopping(e), s; }
      }
      e := Fence(c, s);
      if !e.Fine? { return Stopping(e), s; }
      ResultIsTrue(c, s);
      // The readiness callback.
      e := Attempt();
      if !e.Fine? { return Stopping(e), s; }
      if RestoreOnly(s0) {
        x := if s.result.Running? then Broke else Ended(s.result);
      } else {
        ghost var quiet := s;
        x, s := RunStages(c, s);
        SameThrough(s0, quiet, s);
        AccountedLike(old(attempts), attempts, quiet, s, s0, s, cancelled);
      }
    }

    /** Restore every recorded worker; each success is saved, each failure is remembered. */
    method RestoreWorkers(c: Config, s0: Record, failed0: bool) returns (dead: bool, failed: bool, s: Record)
      requires Mem(c, s0) && mayRun == {}
      modifies this`saved, this`durable, this`stopped, this`finished, this`idle
      ensures Mem(c, s) && s == s0.(restoreWorkers := s.restoreWorkers)
      ensures !dead && !failed ==> s.restoreWorkers == []
      ensures failed0 ==> failed
    {
      hide AllCompleted, AllSettled, WithinBudget;
      dead, failed, s := false, failed0, s0;
      var units := s.restoreWorkers;
      for k := 0 to |units|
        invariant Mem(c, s) && s == s0.(restoreWorkers := s.restoreWorkers) && (failed0 ==> failed) && !dead
        invariant !failed ==> forall u :: u in s.restoreWorkers ==> u in units[k..]
      {
        assert units[k..] == [units[k]] + units[k + 1..];
        var e := Restore(units[k]);
        if e.Crash? { dead := true; return; }
        if e.Fine? {
          s := s.(restoreWorkers := Without(s.restoreWorkers, units[k]));
          FieldsKeepTallies(c, s0, s);
          e := Save(c, s);
          if e.Crash? { dead := true; return; }
        }
        failed := failed || e.Fault?;
      }
      SomeMember(s.restoreWorkers);
    }

    /** The result recorded for an execution. */
    static function Verdict(x: Exec): Status {
      if x.Ended? && !x.outcome.Running? then x.outcome else Interrupted
    }

    /** A dead service manager is no proof that the stage stopped: without that proof everything stays owed. */
    method ConfirmStopped(c: Config, s0: Record) returns (e: Exit)
      requires Mem(c, s0)
      modifies this`mayRun, this`saved, this`durable, this`finished, this`idle
      ensures Mem(c, s0)
      ensures e.Fine? ==> mayRun == {}
    {
      hide AllCompleted, AllSettled, WithinBudget;
      e := Fine;
      if s0.currentUnit != "" && s0.currentStage !in s0.completed {
        e := StopStage(c, s0, s0.currentUnit);
        if e.Fault? {
          var s := s0.(state := Interrupted);
          FieldsKeepTallies(c, s0, s);
          e := Save(c, s);
          if e.Fine? { e := Fault; }
        }
      }
    }

    /** Record the verdict, drop the fence and restore the workers. */
    method Release(c: Config, s0: Record, x: Exec) returns (e: Exit, failed: bool, s: Record)
      requires Mem(c, s0) && mayRun == {}
      requires x == Ended(Succeeded) ==> AllCompleted(c, s0)
      requires x == Ended(Failed) ==> !AllCompleted(c, s0) && AllSettled(c, s0)
      modifies this`sentinel, this`sentinelKept, this`saved, this`durable, this`stopped, this`finished, this`idle
      ensures Mem(c, s) && Same(s0, s)
      ensures e.Fine? ==> s == s0.(currentUnit := "", restoring := true, result := Verdict(x), restoreWorkers := s.restoreWorkers)
      ensures e.Fine? && !failed ==> s.restoreWorkers == [] && !sentinel
    {
      hide AllCompleted, AllSettled, WithinBudget;
      s := s0.(currentUnit := "", restoring := true, result := Verdict(x));
      FieldsKeepTallies(c, s0, s);
      e := Save(c, s);
      if !e.Fine? { failed := true; return; }
      e := RemoveSentinel();
      if e.Crash? { failed := true; return; }
      var dead;
      dead, failed, s := RestoreWorkers(c, s, e.Fault?);
      e := if dead then Crash else Fine;
    }

    /** Record the outcome and drop the request, unless the run was interrupted. */
    method Settle(c: Config, s0: Record, x: Exec, failed: bool) returns (r: RunResult)
      requires Mem(c, s0) && mayRun == {} && s0.currentUnit == "" && s0.restoring && s0.result == Verdict(x)
      requires !failed ==> s0.restoreWorkers == [] && !sentinel
      requires x == Ended(Succeeded) ==> AllCompleted(c, s0)
      requires x == Ended(Failed) ==> !AllCompleted(c, s0) && AllSettled(c, s0)
      modifies this`saved, this`durable, this`finished, this`request, this`requestKept
      ensures Inv()
      ensures r.Returned? ==> Verdict(x) == r.outcome && saved == durable && saved.Some?
                              && Concluded(c, saved.value, r.outcome) && Same(s0, saved.value)
                              && stopped == {} && !sentinel && (!r.outcome.Interrupted? ==> request.None?)
      ensures r.Returned? ==> x.Ended? && saved.value.completed == s0.completed && saved.value.failures == s0.failures
      ensures saved.Some? && Owing(saved.value) ==> request == old(request) && requestKept == old(requestKept)
    {
      hide AllCompleted, AllSettled, WithinBudget, Logged;
      var s, e := s0, Fine;
      var outcome := if failed then Interrupted else Verdict(x);
      LoggedFields(s, s.(state := outcome, restoring := failed, result := if failed then s.result else outcome), attempts);
      s := s.(state := outcome, restoring := failed, result := if failed then s.result else outcome);
      FieldsKeepTallies(c, s0, s);
      e := Save(c, s);
      if !e.Fine? { return Giving(e); }
      // The report.
      e := Attempt();
      if !e.Fine? { return Giving(e); }
      if outcome != Interrupted {
        e := RemoveRequest();
        if !e.Fine? { return Giving(e); }
      }
      r := if failed || !x.Ended? then Error else Returned(outcome);
    }

    /** After any execution: confirm that the stage stopped, release the fence and the workers, record the
        outcome. While anything is owed the request and the record stay. */
    method Recover(c: Config, s0: Record, x: Exec) returns (r: RunResult)
      requires Mem(c, s0) && !x.Crashed?
      requires x == Ended(Succeeded) ==> AllCompleted(c, s0)
      requires x == Ended(Failed) ==> !AllCompleted(c, s0) && AllSettled(c, s0)
      modifies this
      ensures Inv()
      ensures r.Returned? ==> Verdict(x) == r.outcome && saved == durable && saved.Some?
                              && Concluded(c, saved.value, r.outcome) && Same(s0, saved.value)
                              && mayRun == {} && stopped == {} && !sentinel
                              && (!r.outcome.Interrupted? ==> request.None?)
      ensures attempts == old(attempts) && cancelled == old(cancelled)
      ensures r.Returned? ==> x.Ended? && saved.value.completed == s0.completed && saved.value.failures == s0.failures
      ensures saved.Some? && Owing(saved.value) ==> request == old(request) && requestKept == old(requestKept)
    {
      hide AllCompleted, AllSettled, WithinBudget, Logged;
      var e := ConfirmStopped(c, s0);
      if !e.Fine? { return Giving(e); }
      var failed, s;
      e, failed, s := Release(c, s0, x);
      if !e.Fine? { return Giving(e); }
      r := Settle(c, s, x, failed);
    }

    // ---------- whole runs ----------

    /** Announce the request and save the record, which runs from now on unless all that is left is to restore. */
    method Announce(c: Config, s0: Record, identity: nat) returns (e: Exit, s: Record)
      requires Inv() && s0.config == Some(c) && Covers(s0)
      requires request.Some? || (!Owing(s0) && s0.state.Running?)
      modifies this`request, this`requestKept, this`lost, this`saved, this`durable, this`finished
      ensures Inv()
      ensures old(request).Some? ==> request == old(request) && requestKept == old(requestKept)
      ensures e.Fine? && old(request).None? ==> request == requestKept == Some(identity)
      ensures e.Fine? ==> Mem(c, s) && saved == durable == Some(s) && request.Some?
      ensures e.Fine? ==> s == if RestoreOnly(s0) then s0.(requestIdentity := request)
                               else s0.(requestIdentity := request, state := Running, result := Running)
      ensures saved.Some? && Owing(saved.value) && saved != old(saved) ==> request.Some? && (old(request).None? ==> requestKept == request)
    {
      hide AllCompleted, AllSettled, Logged;
      s := s0;
      e := SetRequest(identity);
      if !e.Fine? { return; }
      s := s0.(requestIdentity := request);
      if !RestoreOnly(s) { s := s.(state := Running, result := Running); }
      FieldsKeepTallies(c, s0, s);
      LoggedFields(s0, s, attempts);
      e := Save(c, s);
    }

    /** Announce, execute and recover. */
    method Proceed(c: Config, s0: Record, identity: nat) returns (r: RunResult)
      requires ConfigOk(c) && Inv() && s0.config == Some(c) && Covers(s0) && !cancelled
      requires request.Some? || (!Owing(s0) && s0.state.Running?)
      modifies this
      ensures Inv() && old(attempts) <= attempts
      ensures r.Returned? ==> !r.outcome.Running? && saved == durable && saved.Some? && Concluded(c, saved.value, r.outcome)
      ensures r.Returned? ==> mayRun == {} && stopped == {} && !sentinel && (!r.outcome.Interrupted? ==> request.None?)
      ensures r.Returned? ==> Accounted(old(attempts), attempts, s0, saved.value, cancelled) && saved.value.runId == s0.runId
      ensures r.Returned? ==> forall n :: n in s0.completed ==> n in saved.value.completed
      ensures r.Returned? ==> saved.value.requestIdentity == if old(request).Some? then old(request) else Some(identity)
      ensures r == Returned(Interrupted) && !cancelled ==> RestoreOnly(s0) && s0.result.Interrupted?
      ensures saved.Some? && Owing(saved.value) && saved != old(saved) ==>
                request.Some? && (requestKept.Some? <==> old(request).None? || old(requestKept).Some?)
    {
      hide AllCompleted, AllSettled, UnitOk, Logged, Accounted, RecordOk, Covers, Inv, Owed;
      var e, s := Announce(c, s0, identity);
      if !e.Fine? { return Giving(e); }
      ghost var announced := s;
      var x;
      x, s := Execute(c, s);
      if x.Crashed? { return Dead; }
      r := Recover(c, s, x);
      if r.Returned? { AccountedLike(old(attempts), attempts, announced, s, s0, saved.value, cancelled); }
    }

    /** The record to go on with: the one that the request resumes, under its own contract, or a new one while nothing
        is owed. */
    method Load(c: Config, now: nat) returns (s: Option<Record>)
      requires Inv() && ConfigOk(c) && (saved.Some? ==> saved.value.runId < now)
      ensures saved.Some? && Resumes(saved.value, request) ==> s == if saved.value.config == Some(c) then saved else None
      ensures saved.Some? && !Resumes(saved.value, request) && Owing(saved.value) ==> s == None
      ensures s.Some? ==> Covers(s.value) && s.value.config == Some(c) && (request.Some? || (!Owing(s.value) && s.value.state.Running?))
      ensures s.Some? ==> s.value.runId == if saved.Some? && Resumes(saved.value, request) then saved.value.runId else now
      ensures s.Some? && RestoreOnly(s.value) ==> s == saved
      ensures s.Some? ==> Origin(saved, request, now) == if saved.Some? && Resumes(saved.value, request) then s.value else s.value.(config := None)
    {
      hide AllCompleted, AllSettled, UnitOk, Logged;
      if saved.Some? && Resumes(saved.value, request) {
        s := if saved.value.config == Some(c) then saved else None;
      } else if saved.Some? && Owing(saved.value) {
        s := None;
      } else {
        var anew := Record(now, Running, Running, Some(c), [], map[], [], false, None, "", "", -1);
        if saved.Some? { LoggedAnew(saved.value, anew, attempts); } else { NothingLogged(anew); }
        s := Some(anew);
      }
    }

    /** Run, resume or refuse. A record that still owes something is resumed under its own contract or left
        alone; a new run begins only when nothing is owed. */
    method Run(c: Config, now: nat, identity: nat) returns (r: RunResult)
      requires Inv() && (saved.Some? ==> saved.value.runId < now)
      modifies this
      ensures Inv()
      ensures !ConfigOk(c) ==> r.Error? && unchanged(this)
      ensures old(saved).Some? && Resumes(old(saved).value, old(request)) && old(saved).value.config != Some(c)
              ==> !r.Returned? && unchanged(this)
      ensures old(saved).Some? && !Resumes(old(saved).value, old(request)) && Owing(old(saved).value)
              ==> !r.Returned? && unchanged(this)
      ensures r.Returned? ==> !r.outcome.Running? && saved == durable && saved.Some? && Concluded(c, saved.value, r.outcome)
      ensures r.Returned? ==> mayRun == {} && stopped == {} && !sentinel && (!r.outcome.Interrupted? ==> request.None?)
      ensures r.Returned? ==> saved.value.runId
                              == if old(saved).Some? && Resumes(old(saved).value, old(request)) then old(saved).value.runId else now
      ensures r.Returned? ==> saved.value.requestIdentity == if old(request).Some? then old(request) else Some(identity)
      ensures r.Returned? && old(saved).Some? && Resumes(old(saved).value, old(request)) ==>
                forall n :: n in old(saved).value.completed ==> n in saved.value.completed
      ensures old(attempts) <= attempts
      ensures r.Returned? ==> Accounted(old(attempts), attempts, Origin(old(saved), old(request), now), saved.value, cancelled)
      ensures r == Returned(Succeeded) ==>
                forall i :: 0 <= i < |c.stages| ==>
                  || Attempted(saved.value.runId, c.stages[i].name, true) in attempts[|old(attempts)|..]
                  || (old(saved).Some? && Resumes(old(saved).value, old(request)) && c.stages[i].name in old(saved).value.completed)
      ensures r == Returned(Interrupted) && !cancelled ==>
                old(saved).Some? && RestoreOnly(old(saved).value) && old(saved).value.result.Interrupted?
      ensures saved.Some? && Owing(saved.value) && saved != old(saved) ==>
                request.Some? && (requestKept.Some? <==> old(request).None? || old(requestKept).Some?)
    {
      hide *;
      if !ConfigOk(c) { return Error; }
      // The lock, the read and, for a new run, its directory.
      var e := Attempt();
      if !e.Fine? { return Giving(e); }
      var loaded := Load(c, now);
      if loaded.None? { return Error; }
      cancelled, idle := false, {};
      r := Proceed(c, loaded.value, identity);
      if r.Returned? {
        AccountedLike(old(attempts), attempts, loaded.value, saved.value, Origin(old(saved), old(request), now), saved.value, cancelled);
      }
      if r == Returned(Succeeded) {
        EachSucceeded(c, old(attempts), attempts, old(saved), old(request), now, saved.value, cancelled);
      }
    }

    /** Cancel only a run that owes nothing. */
    method Cancel(c: Config) returns (e: Exit)
      requires Inv()
      modifies this`saved, this`durable, this`finished, this`request, this`requestKept
      ensures Inv()
      ensures !ConfigOk(c) || (old(saved).Some? && (Owing(old(saved).value) || sentinel)) ==> !e.Fine? && unchanged(this)
      ensures e.Fine? ==> request.None? && (old(saved).Some? ==>
                saved == durable == Some(old(saved).value.(state := Cancelled, result := Cancelled)))
    {
      hide AllCompleted, AllSettled, UnitOk;
      if !ConfigOk(c) { return Fault; }
      e := Attempt();
      if !e.Fine? { return; }
      if saved.Some? {
        var s := saved.value;
        if Owing(s) || sentinel { return Fault; }
        e := Write(s.(state := Cancelled, result := Cancelled));
        if !e.Fine? { return; }
      }
      e := RemoveRequest();
    }

    /** A user touches or replaces the request marker, and syncs nothing. */
    method Touch(identity: nat)
      requires Inv()
      modifies this`request, this`requestKept
      ensures Inv() && request == Some(identity) && (requestKept == old(requestKept) || requestKept == request)
    {
      request := Some(identity);
      var synced := *;
      if synced { requestKept := request; }
    }

    /** A user withdraws the request between runs. */
    method Withdraw()
      requires Inv()
      modifies this`request, this`requestKept, this`lost
      ensures Inv() && request.None? && lost == (old(lost) || old(request).Some?)
    {
      lost := lost || request.Some?;
      request := None;
      var synced := *;
      if synced { requestKept := None; }
    }

    /** A power loss: the record and the markers last made durable are the ones found. */
    method PowerLoss()
      requires Inv()
      modifies this`saved, this`sentinel, this`request, this`lost
      ensures Inv() && saved == durable && sentinel == sentinelKept && request == requestKept
      ensures lost == (old(lost) || (old(request).Some? && requestKept.None?))
    {
      lost := lost || (request.Some? && requestKept.None?);
      saved, sentinel, request := durable, sentinelKept, requestKept;
    }

    /** What the invariant promises of the record that the next start finds. */
    lemma Promises()
      requires Inv() && durable.Some?
      ensures forall u :: u in stopped ==> u in durable.value.restoreWorkers
      ensures stopped != {} && !lost ==> request.Some?
      ensures mayRun != {} ==> sentinel && sentinelKept && mayRun == {durable.value.currentUnit} && (!lost ==> request.Some?)
      ensures durable.value.state.Succeeded? ==>
                stopped == {} && durable.value.restoreWorkers == [] && durable.value.config.Some? &&
                AllCompleted(durable.value.config.value, durable.value)
      ensures durable.value.config.Some? ==>
                forall n :: Failures(durable.value.failures, n) <= durable.value.config.value.maxAttempts
      ensures forall p :: p in finished && p.0 == durable.value.runId ==> p.1 in durable.value.completed
      ensures forall n :: n in durable.value.completed ==> Attempted(durable.value.runId, n, true) in attempts
      ensures forall n :: Failures(durable.value.failures, n) <= Misses(attempts, durable.value.runId, n)
      ensures Owing(durable.value) ==> forall requested :: Resumes(durable.value, Some(requested))
    {
      if stopped != {} {
        var u :| u in stopped;
        assert u in durable.value.restoreWorkers;
      }
    }

    /** A marker that nobody synced is lost with the power: the owed record is then refused under every contract and
        kept as it is, until a request is made again. */
    method LoseMarker(c: Config, now: nat, identity: nat, again: nat) returns (first: RunResult, second: RunResult)
      requires Inv() && durable.Some? && Owing(durable.value) && requestKept.None?
      requires durable.value.runId < now
      modifies this
      ensures Inv() && !first.Returned?
      ensures second.Returned? ==> old(durable).value.config == Some(c) && saved.Some? && saved.value.runId == old(durable).value.runId
    {
      PowerLoss();
      first := Run(c, now, identity);
      assert saved == old(durable);
      Touch(again);
      second := Run(c, now, identity);
    }

    /** Any number of runs, cancellations, touched and withdrawn requests and power losses, under any contracts: the
        promises hold after each, however it ended. */
    method History(contracts: seq<Config>)
      requires Inv()
      modifies this
      ensures Inv()
    {
      for k := 0 to |contracts|
        invariant Inv()
      {
        var identity: nat, pause: nat := *, *;
        var last := if saved.Some? then saved.value.runId else 0;
        if {
          case true =>
            var r := Run(contracts[k], last + 1 + pause, identity);
          case true => var e := Cancel(contracts[k]);
          case true => Touch(identity);
          case true => Withdraw();
          case true => PowerLoss();
        }
        if durable.Some? { Promises(); }
      }
    }
  }
}
