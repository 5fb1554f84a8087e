/** Write-ahead enqueue of one roborev request. The lock file is also a tombstone: only its creator may
    start a ledger, the ledger is durable before the enqueue, and a ledger without a job means UNKNOWN,
    never permission to try again. One request is enqueued at most once, in every run. */
module RoborevDispatch {
  import opened Effects

  /** The frozen request, as compared with the recorded one. */
  datatype Dispatch = Dispatch(intentId: string, base: string, head: string, checkout: string, agent: string, expectedFiles: nat)

  datatype Identity = Identity(id: nat, uuid: string)

  datatype Ledger = Ledger(schemaVersion: nat, dispatch: Dispatch, job: Option<Identity>)

  datatype File = Missing | Garbage | Recorded(ledger: Ledger)

  datatype Disk = Disk(lock: bool, file: File)

  /** A job as the daemon lists it. */
  datatype Job = Job(identity: Identity, repository: string, range: string, agent: string, options: bool, status: string)

  /** What the daemon answers during one tick: the jobs of the request's own checkout, those after an enqueue, and the
      identity it issues. */
  datatype Answers = Answers(first: seq<Job>, second: seq<Job>, issued: Identity)

  datatype DispatchResult = InProgress | Receipt(job: Identity, status: string) | Failed | Died

  predicate Hex(c: char) { '0' <= c <= '9' || 'a' <= c <= 'f' || 'A' <= c <= 'F' }

  predicate IdentityOk(i: Identity) {
    && i.id > 0 && |i.uuid| == 36
    && forall n | 0 <= n < 36 :: if n in {8, 13, 18, 23} then i.uuid[n] == '-' else Hex(i.uuid[n])
  }

  /** The job is exactly the frozen dispatch, and the one recorded if there is one. */
  predicate Fits(job: Job, l: Ledger) {
    && IdentityOk(job.identity) && job.repository == l.dispatch.checkout
    && job.range == l.dispatch.base + ".." + l.dispatch.head && job.agent == l.dispatch.agent && job.options
    && (l.job.None? || l.job.value == job.identity)
  }

  class Claim {
    var seen: Disk
    var kept: Disk
    /** Workers with an open lock file, and whether they created it. */
    var handles: map<nat, bool>
    /** Every enqueue that may have reached the daemon. */
    ghost var enqueued: seq<Dispatch>

    constructor (disk: Disk)
      ensures Inv() && enqueued == []
    {
      seen, kept, handles, enqueued := disk, disk, map[], [];
    }

    /** After an enqueue the tombstone stands on both disks and nobody holds a creator's handle. */
    ghost predicate Inv()
      reads this
    {
      && |enqueued| <= 1
      && (enqueued != [] ==> seen.lock && kept.lock && forall w :: w in handles ==> !handles[w])
      && (forall v, w :: v in handles && w in handles && handles[v] && handles[w] ==> v == w)
      && (forall w :: w in handles ==> seen.lock)
    }

    method Open(w: nat) returns (e: Exit)
      requires Inv() && w !in handles
      modifies this`seen, this`handles
      ensures Inv() && seen == old(seen).(lock := seen.lock)
      ensures handles == if e.Fine? then old(handles)[w := !old(seen).lock] else old(handles)
    {
      e := Attempt();
      var mine, created := !seen.lock, *;
      if e.Fine? { handles := handles[w := mine]; }
      if e.Fine? || created { seen := seen.(lock := true); }
    }

    /** While one worker holds the lock the others can only open it. */
    method Effect() returns (e: Exit)
      requires Inv() && seen.lock
      modifies this`handles
      ensures Inv() && forall w :: w in handles && handles[w] ==> w in old(handles) && old(handles)[w]
    {
      var others: set<nat> := *;
      handles := (map w | w in others :: false) + handles;
      e := Attempt();
    }

    /** Replace the ledger and sync its directory, which also holds the lock file. */
    method Save(l: Ledger) returns (e: Exit)
      requires Inv() && seen.lock
      modifies this`seen, this`kept, this`handles
      ensures Inv() && seen.lock && forall w :: w in handles && handles[w] ==> w in old(handles) && old(handles)[w]
      ensures e.Fine? ==> seen == kept == Disk(true, Recorded(l))
    {
      e := Effect();
      var renamed, synced := *, *;
      if e.Fine? || renamed { seen := seen.(file := Recorded(l)); }
      if e.Fine? || (renamed && synced) { kept := kept.(file := Recorded(l), lock := kept.lock || e.Fine?); }
    }

    /** Enqueue. Only behind a durable ledger without a job, only by the creator of the tombstone, once. */
    method Enqueue(d: Dispatch) returns (e: Exit)
      requires Inv() && enqueued == [] && seen == kept == Disk(true, Recorded(Ledger(2, d, None)))
      requires forall w :: w in handles ==> !handles[w]
      modifies this`enqueued, this`handles
      ensures Inv() && enqueued == [d]
    {
      enqueued := enqueued + [d];
      e := Effect();
    }

    method Read(creator: bool) returns (e: Exit, ledger: Option<Ledger>)
      requires Inv() && seen.lock
      modifies this`handles
      ensures Inv() && forall w :: w in handles && handles[w] ==> w in old(handles) && old(handles)[w]
      ensures e.Fine? && ledger.None? ==> creator && seen.file.Missing?
      ensures e.Fine? && ledger.Some? ==> seen.file == Recorded(ledger.value)
    {
      ledger := None;
      e := Effect();
      if !e.Fine? { return; }
      match seen.file
      case Missing => e := if creator then Fine else Fault;
      case Garbage => e := Fault;
      case Recorded(l) => ledger := Some(l);
    }

    /** Reconcile one request. An enqueue happens only on the first dispatch, when the daemon lists no job; whatever is
        answered is of the one job listed, which is exactly the frozen dispatch and the job on record, if there was
        one, and is on record from then on. */
    method Tick(w: nat, d: Dispatch, a: Answers) returns (r: DispatchResult)
      requires Inv() && w in handles
      modifies this
      ensures Inv()
      ensures enqueued == old(enqueued) || (enqueued == [d] && old(enqueued) == [] && old(handles)[w])
      ensures enqueued != old(enqueued) ==> a.first == [] && old(seen).file.Missing?
      ensures r.Receipt? ==> seen == kept == Disk(true, Recorded(Ledger(2, d, Some(r.job))))
      ensures r.Receipt? && old(seen).file.Recorded? ==>
                old(seen).file.ledger.job.None? || old(seen).file.ledger.job == Some(r.job)
      ensures r.Receipt? || r.InProgress? ==>
                var jobs := if enqueued == old(enqueued) then a.first else a.second;
                && |jobs| == 1
                && jobs[0].repository == d.checkout && jobs[0].range == d.base + ".." + d.head && jobs[0].agent == d.agent
                && jobs[0].options && IdentityOk(jobs[0].identity)
                && seen == kept == Disk(true, Recorded(Ledger(2, d, Some(jobs[0].identity))))
                && (enqueued != old(enqueued) ==> jobs[0].identity == a.issued)
                && (enqueued == old(enqueued) ==>
                      old(seen).file.Recorded? && old(seen).file.ledger.schemaVersion == 2 && old(seen).file.ledger.dispatch == d
                      && (old(seen).file.ledger.job.Some? ==> old(seen).file.ledger.job == Some(jobs[0].identity)))
                && (r.Receipt? ==> r.job == jobs[0].identity && r.status == jobs[0].status)
                && (if r.Receipt? then r.status in {"done", "failed", "skipped", "cancelled"} else jobs[0].status in {"queued", "running"})
    {
      hide IdentityOk;
      var creator := handles[w];
      handles := handles - {w};
      assert creator ==> enqueued == [] && forall v :: v in handles ==> !handles[v];
      var e, ledger := Read(creator);
      if !e.Fine? { return if e.Crash? then Died else Failed; }
      if ledger.Some? {
        var l := ledger.value;
        if l.schemaVersion != 2 || l.dispatch != d || (l.job.Some? && !IdentityOk(l.job.value)) { return Failed; }
      }
      // The checkout check.
      e := Effect();
      if !e.Fine? { return if e.Crash? then Died else Failed; }
      var jobs := a.first;
      e := Effect();
      if !e.Fine? { return if e.Crash? then Died else Failed; }
      if ledger.None? {
        if jobs != [] { return Failed; }
        e := Save(Ledger(2, d, None));
        if !e.Fine? { return if e.Crash? then Died else Failed; }
        e := Enqueue(d);
        if !e.Fine? { return if e.Crash? then Died else Failed; }
        if !IdentityOk(a.issued) { return Failed; }
        ledger := Some(Ledger(2, d, Some(a.issued)));
        e := Save(ledger.value);
        if !e.Fine? { return if e.Crash? then Died else Failed; }
        jobs := a.second;
        e := Effect();
        if !e.Fine? { return if e.Crash? then Died else Failed; }
      }
      if |jobs| != 1 || !Fits(jobs[0], ledger.value) { return Failed; }
      var identity := jobs[0].identity;
      e := Save(ledger.value.(job := Some(identity)));
      if !e.Fine? { return if e.Crash? then Died else Failed; }
      var status := jobs[0].status;
      if status == "queued" || status == "running" { return InProgress; }
      if status == "failed" || status == "skipped" || status == "cancelled" { return Receipt(identity, status); }
      if status != "done" { return Failed; }
      // The complete persisted review.
      e := Effect();
      r := if e.Fine? then Receipt(identity, "done") else if e.Crash? then Died else Failed;
    }

    method PowerLoss()
      requires Inv()
      modifies this`seen, this`handles
      ensures Inv() && seen == kept && handles == map[]
    {
      seen, handles := kept, map[];
    }

    /** Somebody deletes the ledger; the tombstone stays. */
    method LoseLedger()
      requires Inv()
      modifies this`seen, this`kept
      ensures Inv() && seen.file.Missing?
    {
      seen := seen.(file := Missing);
      var everywhere := *;
      if everywhere { kept := kept.(file := Missing); }
    }

    /** Any workers, in any order, with crashes, power losses and lost ledgers between: at most one enqueue. */
    method Patrol(turns: seq<(nat, Dispatch)>)
      requires Inv()
      modifies this
      ensures Inv() && |enqueued| <= 1
      ensures old(enqueued) != [] ==> enqueued == old(enqueued)
    {
      for i := 0 to |turns|
        invariant Inv() && (old(enqueued) != [] ==> enqueued == old(enqueued))
      {
        var (w, d) := turns[i];
        if {
          case w !in handles => var e := Open(w);
          case w in handles =>
            var answers: Answers := *;
            var r := Tick(w, d, answers);
          case w in handles => handles := handles - {w};
          case true => PowerLoss();
          case true => LoseLedger();
        }
      }
    }
  }
}
