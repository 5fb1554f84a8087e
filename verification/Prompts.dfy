/** Write-ahead prompts of one owner. A prompt is prepared once, made durable, posted, and repeated unchanged
    over refreshes, crashes and lost responses until a receipt with the same identity and content is found. */
module Prompts {
  import opened Effects

  const MAX_GENERATION: nat := 0xFFFF_FFFF_FFFF_FFFF

  /** A message identity: the hash of what admitted it, or one kept from an imported journal. */
  datatype Id = Fresh(session: string, version: string, goal: string, generation: nat) | Imported(text: string)

  datatype Metadata = Metadata(packet: nat, eventVersion: Option<string>)

  datatype Body = Body(
    id: Id, text: string, metadata: Metadata,
    files: Option<seq<string>>, agents: Option<seq<string>>, skills: Option<seq<string>>)

  datatype Pending = Pending(
    version: string, observation: Option<string>, progress: Option<string>, goal: string, body: Body, preparedAt: string,
    attemptAt: Option<string>)

  /** The journal fields of one owner that admission reads or writes. */
  datatype Packet = Packet(
    version: Option<string>, observation: Option<string>, progress: Option<string>, terminal: bool,
    generation: nat, pending: Option<Pending>,
    delivered: Option<string>, deliveredObservation: Option<string>, deliveredProgress: Option<string>,
    deliveredAt: Option<string>, deliveredPreparedAt: Option<string>,
    deliveredAttemptAt: Option<string>, goalAck: Option<string>)

  /** A message as the native session shows it. */
  datatype Message = Message(id: Id, session: Option<string>, kind: string, body: Body)

  datatype Owner = Owner(number: nat, session: string)

  predicate NeedsWake(p: Packet) { !p.terminal && p.pending.None? && p.version != p.delivered }

  predicate Blank(s: string) { forall c | c in s :: c in " \t\n\r" }

  /** A message shown for a session. */
  datatype Sighting = Sighting(session: string, message: Message)

  /** The message shown is a receipt of exactly this input: absent attachments are empty ones, and a message need not
      name its session. */
  ghost predicate Confirms(s: Sighting, b: Body) {
    var m := s.message;
    && m.id == b.id && (m.session.None? || m.session == Some(s.session)) && m.kind == "user"
    && m.body.text == b.text && m.body.metadata == b.metadata
    && m.body.files.GetOr([]) == b.files.GetOr([]) && m.body.agents.GetOr([]) == b.agents.GetOr([])
    && m.body.skills.GetOr([]) == b.skills.GetOr([])
  }

  /** Every acknowledged input was shown as it was prepared. */
  ghost predicate Confirmed(acked: set<Body>, shown: set<Sighting>) {
    forall b :: b in acked ==> exists s :: s in shown && Confirms(s, b)
  }

  /** What the session shows: its inbox, and the transcript's answer for the pending identity. */
  ghost function Shown(session: string, inbox: seq<Message>, transcript: Option<Message>): set<Sighting> {
    (set m | m in inbox :: Sighting(session, m)) + if transcript.Some? then {Sighting(session, transcript.value)} else {}
  }

  /** The message that answers for an identity: the first of the inbox, and the transcript's without one. */
  ghost predicate Answers(m: Message, id: Id, inbox: seq<Message>, transcript: Option<Message>) {
    || (exists i :: 0 <= i < |inbox| && inbox[i] == m && m.id == id && forall j | 0 <= j < i :: inbox[j].id != id)
    || (transcript == Some(m) && forall i | 0 <= i < |inbox| :: inbox[i].id != id)
  }

  lemma AnswerIsOne(m: Message, n: Message, id: Id, inbox: seq<Message>, transcript: Option<Message>)
    requires Answers(m, id, inbox, transcript) && Answers(n, id, inbox, transcript)
    ensures m == n
  {
  }

  lemma AnswerIsShown(m: Message, id: Id, session: string, inbox: seq<Message>, transcript: Option<Message>)
    requires Answers(m, id, inbox, transcript)
    ensures Sighting(session, m) in Shown(session, inbox, transcript)
  {
  }

  lemma ConfirmedNext(acked: set<Body>, shown: set<Sighting>, b: Body, s: Sighting, more: set<Sighting>)
    requires Confirmed(acked, shown) && Confirms(s, b) && s in more
    ensures Confirmed(acked + {b}, shown + more)
  {
    hide Confirms;
    forall c | c in acked + {b} ensures exists t :: t in shown + more && Confirms(t, c) {
      if c != b {
        var t :| t in shown && Confirms(t, c);
        assert t in shown + more;
      }
    }
  }

  lemma ConfirmedStill(acked: set<Body>, shown: set<Sighting>, more: set<Sighting>)
    requires Confirmed(acked, shown)
    ensures Confirmed(acked, shown + more)
  {
    hide Confirms;
    forall c | c in acked ensures exists t :: t in shown + more && Confirms(t, c) {
      var t :| t in shown && Confirms(t, c);
      assert t in shown + more;
    }
  }

  /** Adopt a receipt. */
  function Acknowledged(p: Packet, at: string): Packet
    requires p.pending.Some?
  {
    var q := p.pending.value;
    p.(delivered := Some(q.version), deliveredObservation := q.observation, deliveredProgress := q.progress,
       deliveredAt := Some(at), deliveredPreparedAt := Some(q.preparedAt), deliveredAttemptAt := q.attemptAt, goalAck := Some(q.goal), pending := None)
  }

  /** What the record says was delivered. */
  ghost function Delivery(p: Packet): seq<Option<string>> {
    [p.delivered, p.deliveredObservation, p.deliveredProgress, p.deliveredAt, p.deliveredPreparedAt, p.deliveredAttemptAt, p.goalAck]
  }

  function NewBody(p: Packet, o: Owner, goal: string, text: string): Body
    requires p.version.Some?
  {
    Body(Fresh(o.session, p.version.value, goal, p.generation + 1), text, Metadata(o.number, p.version), None, None, None)
  }

  /** Keep a pending body; prepare a fresh one only for an unadmitted event. */
  function Prepare(p: Packet, o: Owner, goal: string, text: string, at: string): Option<Packet> {
    if p.pending.Some? then Some(p)
    else if !NeedsWake(p) || Blank(text) || p.version.GetOr("") == "" || goal == "" || at == "" || p.generation >= MAX_GENERATION
    then None
    else Some(p.(generation := p.generation + 1, pending :=
                   Some(Pending(p.version.value, p.observation, p.progress, goal, NewBody(p, o, goal, text), at, None))))
  }

  /** What a record must account for: prompts without a receipt are pending, generations are behind, and an
      identity stands for one body. */
  ghost predicate Accounts(p: Packet, posted: set<Body>, acked: set<Body>) {
    && (forall b :: b in posted && b !in acked ==> p.pending.Some? && p.pending.value.body == b)
    && (forall b :: b in posted && b.id.Fresh? ==> b.id.generation <= p.generation)
    && (p.pending.Some? ==>
          var c := p.pending.value.body;
          && (c.id.Fresh? ==> c.id.generation <= p.generation)
          && (forall b :: b in posted && b.id == c.id ==> b == c))
  }

  lemma PrepareAccounts(p: Packet, o: Owner, goal: string, text: string, at: string, posted: set<Body>, acked: set<Body>)
    requires Accounts(p, posted, acked) && Prepare(p, o, goal, text, at).Some?
    ensures var q := Prepare(p, o, goal, text, at).value;
            && Accounts(q, posted, acked) && q.pending.Some?
            && (p.pending.Some? ==> q == p) && Delivery(q) == Delivery(p)
            && (p.pending.None? ==> NeedsWake(p) && q.pending.value.body.id.Fresh?)
            && (p.pending.None? ==> forall b :: b in posted && b.id.Fresh? ==> b.id.generation < q.pending.value.body.id.generation)
            && (p.pending.None? ==> !p.terminal && p.version != p.delivered && !Blank(text) && q.generation <= MAX_GENERATION
                                    && q.pending.value.body.text == text && q.pending.value.body.id.session == o.session
                                    && q.pending.value.body.metadata == Metadata(o.number, Some(q.pending.value.version)))
  {
  }

  lemma AcknowledgeAccounts(p: Packet, at: string, posted: set<Body>, acked: set<Body>)
    requires Accounts(p, posted, acked) && p.pending.Some?
    ensures Accounts(Acknowledged(p, at), posted, acked + {p.pending.value.body})
  {
  }

  /** An acknowledged event is delivered with the observation and the progress it was prepared from, and wakes its
      owner again only when another event is there. */
  lemma PreparedThenAcknowledged(p: Packet, o: Owner, goal: string, text: string, at: string, attempt: Option<string>, receipt: string)
    requires p.pending.None? && Prepare(p, o, goal, text, at).Some?
    ensures var q := Prepare(p, o, goal, text, at).value;
            var tried := q.(pending := Some(q.pending.value.(attemptAt := attempt)));
            var after := Acknowledged(tried, receipt);
            && after == p.(generation := p.generation + 1, delivered := p.version, deliveredObservation := p.observation,
                           deliveredProgress := p.progress, goalAck := Some(goal), deliveredAt := Some(receipt),
                           deliveredPreparedAt := Some(at), deliveredAttemptAt := attempt)
            && !NeedsWake(after)
            && forall version :: NeedsWake(after.(version := version)) <==> version != p.version
  {
  }

  class Campaign {
    /** The journal in memory, as read back, and as a power loss would leave it. */
    var memory: Packet
    var saved: Packet
    var durable: Packet
    ghost var posted: set<Body>
    ghost var acked: set<Body>
    /** Every message a session showed. */
    ghost var shown: set<Sighting>

    constructor (p: Packet)
      requires p.pending.Some? && p.pending.value.body.id.Fresh? ==> p.pending.value.body.id.generation <= p.generation
      ensures Inv() && posted == {} && acked == {} && shown == {}
    {
      memory, saved, durable, posted, acked, shown := p, p, p, {}, {}, {};
    }

    ghost predicate Inv()
      reads this
    {
      && Accounts(memory, posted, acked) && Accounts(saved, posted, acked) && Accounts(durable, posted, acked)
      && (forall b, c :: b in posted && c in posted && b.id == c.id ==> b == c)
      && Confirmed(acked, shown)
    }

    /** Persist a journal. */
    method Persist(p: Packet) returns (e: Exit)
      requires Inv() && Accounts(p, posted, acked)
      modifies this`saved, this`durable
      ensures Inv() && Accounts(p, posted, acked) && (e.Fine? ==> saved == durable == p)
    {
      e := Attempt();
      var renamed, synced := *, *;
      if e.Fine? || renamed { saved := p; }
      if e.Fine? || (renamed && synced) { durable := p; }
    }

    /** Post a prompt. It must be the durable pending body, and every earlier prompt without a receipt must
        be this very prompt. */
    method Post(body: Body) returns (e: Exit)
      requires Inv() && saved == durable == memory && memory.pending.Some? && memory.pending.value.body == body
      requires forall b :: b in posted && b !in acked ==> b == body
      modifies this`posted
      ensures Inv() && posted == old(posted) + {body}
    {
      posted := posted + {body};
      e := Attempt();
    }

    /** Take over a journal that accounts for everything. */
    method Adopt(p: Packet)
      requires Inv() && Accounts(p, posted, acked)
      modifies this`memory
      ensures Inv() && memory == p
    {
      memory := p;
    }

    /** The message that answers for an identity. */
    method Find(id: Id, inbox: seq<Message>, transcript: Option<Message>) returns (found: Option<Message>)
      ensures found.Some? ==> Answers(found.value, id, inbox, transcript)
      ensures found.None? ==> forall m :: !Answers(m, id, inbox, transcript)
    {
      for i := 0 to |inbox|
        invariant forall j :: 0 <= j < i ==> inbox[j].id != id
      {
        if inbox[i].id == id { return Some(inbox[i]); }
      }
      found := transcript;
    }

    /** Compare a receipt with the pending input. */
    method VerifyInput(m: Message, b: Body, o: Owner) returns (ok: bool)
      ensures ok <==> Confirms(Sighting(o.session, m), b)
    {
      if m.id != b.id || (m.session.Some? && m.session.value != o.session) || m.kind != "user" { return false; }
      if m.body.text != b.text || m.body.metadata != b.metadata { return false; }
      if m.body.files.GetOr([]) != b.files.GetOr([]) || m.body.agents.GetOr([]) != b.agents.GetOr([]) { return false; }
      ok := m.body.skills.GetOr([]) == b.skills.GetOr([]);
    }

    /** Look for the pending input's receipt in what the session shows. It acknowledges exactly an input whose answer
        agrees with it in every part; an answer that differs stops the cycle with nothing changed. */
    method Reconcile(o: Owner, at: string, inbox: seq<Message>, transcript: Option<Message>) returns (e: Exit, candidate: Packet)
      requires Inv()
      modifies this`acked, this`shown
      ensures Inv() && Accounts(candidate, posted, acked) && shown == old(shown) + Shown(o.session, inbox, transcript)
      ensures candidate == memory || (memory.pending.Some? && candidate == Acknowledged(memory, at) && memory.pending.value.body in acked)
      ensures acked == old(acked) || (memory.pending.Some? && acked == old(acked) + {memory.pending.value.body})
      ensures acked != old(acked) || candidate != memory ==> e.Fine? && memory.pending.Some?
      ensures acked != old(acked) || candidate != memory ==>
                var b := memory.pending.value.body;
                exists m :: (
                  && Answers(m, b.id, inbox, transcript) && m.id == b.id
                  && (m.session.Some? ==> m.session.value == o.session) && m.kind == "user"
                  && m.body.text == b.text && m.body.metadata == b.metadata
                  && m.body.files.GetOr([]) == b.files.GetOr([])
                  && m.body.agents.GetOr([]) == b.agents.GetOr([])
                  && m.body.skills.GetOr([]) == b.skills.GetOr([]))
      ensures forall m :: memory.pending.Some? && Answers(m, memory.pending.value.body.id, inbox, transcript) ==>
                if Confirms(Sighting(o.session, m), memory.pending.value.body)
                then e.Fine? ==> candidate == Acknowledged(memory, at) && acked == old(acked) + {memory.pending.value.body}
                else !e.Fine? && candidate == memory && acked == old(acked)
    {
      hide Accounts, Confirmed, Answers, Shown;
      candidate := memory;
      shown := shown + Shown(o.session, inbox, transcript);
      ConfirmedStill(acked, old(shown), Shown(o.session, inbox, transcript));
      e := Attempt();
      if !e.Fine? || memory.pending.None? { return; }
      var body := memory.pending.value.body;
      var found := Find(body.id, inbox, transcript);
      if found.Some? {
        AnswerIsShown(found.value, body.id, o.session, inbox, transcript);
        var ok := VerifyInput(found.value, body, o);
        if !ok {
          e := Fault;
        } else {
          AcknowledgeAccounts(memory, at, posted, acked);
          AccountsStill(memory, posted, acked, body);
          AccountsStill(saved, posted, acked, body);
          AccountsStill(durable, posted, acked, body);
          ConfirmedNext(acked, old(shown), body, Sighting(o.session, found.value), Shown(o.session, inbox, transcript));
          candidate := Acknowledged(memory, at);
          acked := acked + {body};
        }
        forall m | Answers(m, body.id, inbox, transcript) ensures m == found.value {
          AnswerIsOne(m, found.value, body.id, inbox, transcript);
        }
      }
    }

    /** Prepare or repeat the prompt, make it durable, bind the attempt to it, post it. */
    method Submit(o: Owner, goal: string, text: string, at: string) returns (e: Exit)
      requires Inv() && (memory.pending.Some? || NeedsWake(memory))
      modifies this
      ensures Inv() && acked == old(acked) && shown == old(shown)
      ensures old(memory).pending.Some? ==> posted <= old(posted) + {old(memory).pending.value.body}
      ensures posted == old(posted) || (saved == durable == memory && memory.pending.Some?
                                        && posted == old(posted) + {memory.pending.value.body})
      ensures Delivery(memory) == Delivery(old(memory))
      ensures e.Fine? ==> memory.pending.Some? && memory.pending.value.body in posted
    {
      hide Accounts, Prepare, NeedsWake, NewBody, Blank, Confirmed, Delivery;
      e := Attempt();
      if !e.Fine? { return; }
      var prepared := Prepare(memory, o, goal, text, at);
      if prepared.None? { return Fault; }
      PrepareAccounts(memory, o, goal, text, at, posted, acked);
      Adopt(prepared.value);
      OnlyPending(memory, posted, acked);
      var body := memory.pending.value.body;
      e := Persist(memory);
      if !e.Fine? { return; }
      // The owner's identity.
      e := Attempt();
      if !e.Fine? { return; }
      AttemptIsFree(memory, at, posted, acked);
      Adopt(memory.(pending := Some(memory.pending.value.(attemptAt := Some(at)))));
      e := Persist(memory);
      if !e.Fine? { return; }
      e := Attempt();
      if !e.Fine? { return; }
      e := Post(body);
      if !e.Fine? { return; }
      var matching := *;
      if !matching { e := Fault; }
    }

    /** One cycle for this owner: reconcile, adopt a bounded recovery event, commit, and submit if capacity
        and compaction allow. Only the commit makes a receipt's effect visible to the next cycle. */
    method Cycle(o: Owner, goal: string, text: string, at: string, inbox: seq<Message>, transcript: Option<Message>) returns (e: Exit)
      requires Inv()
      modifies this
      ensures Inv() && shown == old(shown) + Shown(o.session, inbox, transcript)
      ensures acked == old(acked) || (old(memory).pending.Some? && acked == old(acked) + {old(memory).pending.value.body}
                                      && exists m :: Answers(m, old(memory).pending.value.body.id, inbox, transcript)
                                                     && Confirms(Sighting(o.session, m), old(memory).pending.value.body))
      ensures Delivery(memory) == Delivery(old(memory)) || (old(memory).pending.Some? && old(memory).pending.value.body in acked
                                                            && Delivery(memory) == Delivery(Acknowledged(old(memory), at)))
      ensures forall m :: old(memory).pending.Some? && Answers(m, old(memory).pending.value.body.id, inbox, transcript)
                          && Confirms(Sighting(o.session, m), old(memory).pending.value.body) && e.Fine? ==>
                Delivery(memory) == Delivery(Acknowledged(old(memory), at))
      ensures forall m :: old(memory).pending.Some? && Answers(m, old(memory).pending.value.body.id, inbox, transcript)
                          && !Confirms(Sighting(o.session, m), old(memory).pending.value.body) ==>
                !e.Fine? && memory == old(memory) && acked == old(acked) && posted == old(posted) && saved == old(saved) && durable == old(durable)
      ensures forall b :: b in posted && b !in old(posted) ==> forall c :: c in old(posted) && c !in acked ==> c == b
    {
      hide Accounts, Confirmed, Confirms, Answers, Shown;
      var candidate;
      e, candidate := Reconcile(o, at, inbox, transcript);
      if !e.Fine? { return; }
      var recovery: Option<string> := *;
      if candidate.pending.None? && recovery.Some? {
        VersionIsFree(candidate, recovery, posted, acked);
        candidate := candidate.(version := recovery);
      }
      e := Persist(candidate);
      if !e.Fine? { return; }
      memory := candidate;
      var admitted := *;
      if admitted && (memory.pending.Some? || NeedsWake(memory)) {
        OnlyPending(memory, posted, acked);
        e := Submit(o, goal, text, at);
        if e.Crash? { return; }
      }
      e := Persist(memory);
    }

    /** A refresh brings new versions; the pending input and the generation stay. */
    method Refresh(version: Option<string>, observation: Option<string>, progress: Option<string>, terminal: bool)
      requires Inv()
      modifies this`memory
      ensures Inv() && memory == old(memory).(version := version, observation := observation, progress := progress, terminal := terminal)
    {
      memory := memory.(version := version, observation := observation, progress := progress, terminal := terminal);
    }

    /** The process dies; the next one reads the journal back. */
    method Restart()
      requires Inv()
      modifies this`memory
      ensures Inv() && memory == saved
    {
      memory := saved;
    }

    method PowerLoss()
      requires Inv()
      modifies this`memory, this`saved
      ensures Inv() && memory == saved == durable
    {
      memory, saved := durable, durable;
    }

    /** Any history: one identity is one body, at most one prompt is without a receipt, and every prompt that counts as
        delivered was shown by its session as it was prepared. */
    method History(o: Owner, inputs: seq<(string, string, string)>)
      requires Inv()
      modifies this
      ensures Inv()
      ensures forall b, c :: b in posted && c in posted && b.id == c.id ==> b == c
      ensures forall b, c :: b in posted && c in posted && b !in acked && c !in acked ==> b == c
      ensures forall b :: b in acked ==> exists s :: s in shown && Confirms(s, b)
    {
      for i := 0 to |inputs|
        invariant Inv()
      {
        if {
          case true =>
            var inbox: seq<Message>, transcript: Option<Message> := *, *;
            var e := Cycle(o, inputs[i].0, inputs[i].1, inputs[i].2, inbox, transcript);
            if e.Crash? { Restart(); }
          case true =>
            var version, observation, progress: Option<string>, terminal := *, *, *, *;
            Refresh(version, observation, progress, terminal);
          case true => var e := Persist(memory);
          case true => Restart();
          case true => PowerLoss();
        }
      }
    }
  }

  lemma VersionIsFree(p: Packet, version: Option<string>, posted: set<Body>, acked: set<Body>)
    requires Accounts(p, posted, acked)
    ensures Accounts(p.(version := version), posted, acked)
  {
  }

  lemma AttemptIsFree(p: Packet, at: string, posted: set<Body>, acked: set<Body>)
    requires Accounts(p, posted, acked) && p.pending.Some?
    ensures var q := p.(pending := Some(p.pending.value.(attemptAt := Some(at))));
            Accounts(q, posted, acked) && Delivery(q) == Delivery(p)
  {
  }

  lemma AccountsStill(p: Packet, posted: set<Body>, acked: set<Body>, b: Body)
    requires Accounts(p, posted, acked)
    ensures Accounts(p, posted, acked + {b})
  {
  }

  lemma OnlyPending(p: Packet, posted: set<Body>, acked: set<Body>)
    requires Accounts(p, posted, acked)
    ensures forall b :: b in posted && b !in acked ==> p.pending.Some? && p.pending.value.body == b
  {
  }
}
