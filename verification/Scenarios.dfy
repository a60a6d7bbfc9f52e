/** Runs of the ingest protocol in which clients of a healthy store are answered other than its comments promise, each
    reached from any state that admits it, and each shown to occur in a run that began with nothing. */
module Scenarios {
  import opened Bounded
  import opened Ordering
  import opened BehaviorOperational
  import opened Aggregate
  import opened Collector
  import opened Evidence
  import opened Runs
  import opened Counting
  import opened Retention
  import opened Ingest
  import opened Protocol
  import opened ProtocolSafety
  import opened ProtocolRuns
  import opened ControlPlane
  import opened TornReads

  // ---- Extending an execution ---------------------------------------------------------------------------------

  /** Some execution ends in this state. */
  ghost predicate Attainable(o: Origin, s: System) {
    exists states, actions :: Execution(o, states, actions) && states[|actions|] == s
  }

  lemma StartAttains(o: Origin, s: System)
    requires Init(o, s)
    ensures Attainable(o, s)
  {
    hide Init;
    var none: seq<Action> := [];
    assert Execution(o, [s], none) && [s][|none|] == s;
  }

  lemma StepAttains(o: Origin, s: System, a: Action, t: System)
    requires Attainable(o, s) && Next(s, a, t)
    ensures Attainable(o, t)
  {
    hide Init, Next;
    var states, actions :| Execution(o, states, actions) && states[|actions|] == s;
    var states', actions' := states + [t], actions + [a];
    forall i: nat | i < |actions'| ensures StepAt(states', actions', i) {
      if i < |actions| {
        assert StepAt(states, actions, i);
      }
    }
    assert Execution(o, states', actions') && states'[|actions'|] == t;
  }

  lemma ReachedInvariant(o: Origin, s: System)
    requires Attainable(o, s)
    ensures Invariant(o, s) && StoreInvariant(o, s)
  {
    hide Init, StepAt, Invariant, StoreInvariant;
    var states, actions :| Execution(o, states, actions) && states[|actions|] == s;
    InvariantAt(o, states, actions, |actions|);
    InvariantSays(o, s, 0);
  }

  ghost function Arrived(s: System, id: nat, q: Request): System {
    s.(clients := s.clients[id := Submitted(q)])
  }

  ghost function Stepped(s: System, id: nat): System
    requires id in s.clients
  {
    var (after, c) := ClientStep(s.d, |s.log|, s.clients[id]);
    System(after, s.clients[id := c], if Accepts(s.d, s.clients[id]) then s.log + [s.clients[id].q] else s.log)
  }

  lemma ArriveAttains(o: Origin, s: System, id: nat, q: Request)
    requires Attainable(o, s) && id !in s.clients
    ensures Attainable(o, Arrived(s, id, q))
  {
    hide Attainable;
    StepAttains(o, s, Arrive(id, q), Arrived(s, id, q));
  }

  lemma SteppedAttains(o: Origin, s: System, id: nat)
    requires Attainable(o, s) && id in s.clients
    ensures Attainable(o, Stepped(s, id))
  {
    hide Attainable, ClientStep, Accepts;
    StepAttains(o, s, Step(id), Stepped(s, id));
  }

  /** What some steps of one client leave, an applied answer having appended its request. */
  ghost function MovedOn(s: System, id: nat, after: Durable, e: Client): System
    requires id in s.clients
  {
    System(after, s.clients[id := e], if e.Answered? && IsApplied(e.reply) then s.log + [s.clients[id].q] else s.log)
  }

  lemma AcceptsIffApplied(d: Durable, now: nat, c: Client)
    requires !c.Answered?
    ensures Accepts(d, c) <==> ClientStep(d, now, c).1.Answered? && IsApplied(ClientStep(d, now, c).1.reply)
    ensures ClientStep(d, now, c).1.q == c.q
    ensures !c.Prepared? ==> ClientStep(d, now, c).0 == d
    ensures !ClientStep(d, now, c).1.Answered? ==> ClientStep(d, now, c).0 == d
  {
    hide StateFrom, EvidenceRead, Reduce, Current, ReadNext, Marked, CommitSpec, ValidFacts, Finished, CommitFor, Observable;
  }

  lemma {:induction false} AnsweredStays(d: Durable, now: nat, c: Client, n: nat)
    requires c.Answered?
    ensures Iterate(d, now, c, n) == (d, c)
  {
    if n > 0 {
      AnsweredStays(d, now, c, n - 1);
    }
  }

  lemma {:induction false} IterateAttains(o: Origin, s: System, id: nat, n: nat)
    requires Attainable(o, s) && id in s.clients && !s.clients[id].Answered?
    ensures var (after, e) := Iterate(s.d, |s.log|, s.clients[id], n); Attainable(o, MovedOn(s, id, after, e))
    decreases n
  {
    hide Attainable, ClientStep, Accepts;
    var c := s.clients[id];
    if n == 0 {
      assert s.clients[id := c] == s.clients;
    } else {
      SteppedAttains(o, s, id);
      AcceptsIffApplied(s.d, |s.log|, c);
      var t := Stepped(s, id);
      if t.clients[id].Answered? {
        AnsweredStays(t.d, |s.log|, t.clients[id], n - 1);
      } else {
        IterateAttains(o, t, id, n - 1);
        var (after, e) := Iterate(t.d, |t.log|, t.clients[id], n - 1);
        assert t.clients[id := e] == s.clients[id := e];
      }
    }
  }

  lemma LeadsAttains(o: Origin, s: System, id: nat, after: Durable, e: Client)
    requires Attainable(o, s) && id in s.clients && !s.clients[id].Answered? && Leads(s.d, |s.log|, s.clients[id], after, e)
    ensures Attainable(o, MovedOn(s, id, after, e))
  {
    hide Attainable, Iterate;
    var n :| Iterate(s.d, |s.log|, s.clients[id], n) == (after, e);
    IterateAttains(o, s, id, n);
  }

  // ---- One client's steps -------------------------------------------------------------------------------------

  /** A client that arrives, finds the run running under its profile, and reads the cursor row. */
  ghost function CursorRead(s: System, id: nat, q: Request): System {
    s.(clients := s.clients[id := ReadingCursor(q, s.d.run, s.d.cursor, NOTHING_READ, UNMARKED.(row := |s.log|))])
  }

  lemma CursorReadAttains(o: Origin, s: System, id: nat, q: Request)
    requires Attainable(o, s) && id !in s.clients && s.d.run.status == RunRunning && q.profile == s.d.run.profile
    ensures Attainable(o, CursorRead(s, id, q))
  {
    hide Attainable, CommitSpec, StateFrom, EvidenceRead, Gathered, Admit;
    ArriveAttains(o, s, id, q);
    var s1 := Arrived(s, id, q);
    SteppedAttains(o, s1, id);
    var s2 := Stepped(s1, id);
    assert s2.clients == s.clients[id := RunSeen(q, s.d.run)];
    SteppedAttains(o, s2, id);
    assert Stepped(s2, id).clients == CursorRead(s, id, q).clients;
  }

  /** The client's next statement, run now. */
  ghost function AfterStatement(s: System, id: nat): System
    requires id in s.clients
  {
    match s.clients[id]
    case ReadingCursor(q, run, row, seen, at) =>
      s.(clients := s.clients[id := ReadingCursor(q, run, row, ReadNext(seen, s.d), Marked(at, seen, |s.log|))])
    case _ => s
  }

  lemma StatementAttains(o: Origin, s: System, id: nat)
    requires Attainable(o, s) && id in s.clients && s.clients[id].ReadingCursor? && !Finished(s.clients[id].seen)
    ensures Attainable(o, AfterStatement(s, id))
  {
    hide Attainable, CommitSpec, StateFrom, EvidenceRead, Gathered, Admit, ReadNext, Marked, Finished;
    SteppedAttains(o, s, id);
  }

  ghost function AnswerOf(c: Client): Client
    requires c.ReadingCursor? && Finished(c.seen)
  {
    Admit(c.q, c.run, StateFrom(c.row, EvidenceRead(c.seen, c.run.environment)))
  }

  lemma AnswerAttains(o: Origin, s: System, id: nat)
    requires Attainable(o, s) && id in s.clients && s.clients[id].ReadingCursor? && Finished(s.clients[id].seen)
    ensures Attainable(o, s.(clients := s.clients[id := AnswerOf(s.clients[id])]))
    ensures var c := s.clients[id]; AnswersAsMarked(o, s.log, c.q, c.row, c.at, AnswerOf(c)) && AnswerOf(c).q == c.q
  {
    hide Attainable, CommitSpec, StateFrom, EvidenceRead, Gathered, Admit, Finished, AnswersAsMarked, StoreInvariant, ClientInvariant;
    SteppedAttains(o, s, id);
    ReachedInvariant(o, s);
    InvariantSays(o, s, id);
    var c := s.clients[id];
    AdmitKeepsRequest(c.q, c.run, StateFrom(c.row, EvidenceRead(c.seen, c.run.environment)));
    CursorReaderAnswer(o, s, c.q, c.run, c.row, c.seen, c.at);
  }

  // ---- Another client's whole call ----------------------------------------------------------------------------

  /** The state after one more client's undisturbed call. */
  ghost function Called(s: System, id: nat, q: Request): System {
    MovedOn(Arrived(s, id, q), id, IngestAlone(s.d, q).0, Answered(q, IngestAlone(s.d, q).1))
  }

  lemma AloneKeepsRun(d: Durable, q: Request)
    ensures IngestAlone(d, q).0.run == d.run
  {
    hide StateOf, StoredOutcome, StaleError, Retain, PairAgrees, HistoryOf, Gathered, Admit, CheckRun;
  }

  /** An acceptable request is accepted when its client is left undisturbed. */
  lemma CallAttains(o: Origin, s: System, id: nat, q: Request)
    requires Attainable(o, s) && id !in s.clients && Acceptable(o, s, q) && CursorOf(o, s.log) <= MAX_UINT64
    ensures var t := Called(s, id, q);
            && Attainable(o, t) && t.log == s.log + [q] && t.d.run == s.d.run
            && t.clients == s.clients[id := Answered(q, IngestAlone(s.d, q).1)] && IsApplied(IngestAlone(s.d, q).1)
  {
    hide Attainable, IngestAlone, Acceptable, Invariant, StoreInvariant, Leads;
    ReachedInvariant(o, s);
    AppliedIffAcceptable(o, s, q);
    AloneKeepsRun(s.d, q);
    UndisturbedCall(s.d, |s.log|, q);
    ArriveAttains(o, s, id, q);
    LeadsAttains(o, Arrived(s, id, q), id, IngestAlone(s.d, q).0, Answered(q, IngestAlone(s.d, q).1));
    var t := Called(s, id, q);
    assert t.clients == s.clients[id := Answered(q, IngestAlone(s.d, q).1)];
  }

  lemma AcceptableSays(o: Origin, s: System, q: Request)
    requires Acceptable(o, s, q)
    ensures s.d.run.status == RunRunning && q.profile == s.d.run.profile && q.sequence == CursorOf(o, s.log) < MAX_UINT64
    ensures Timely(o, s.log) && ValidDigest(q.digest) && ValidFacts(q.facts) && Observable(q)
    ensures FoldLog(o.start, s.log).Ok? && Reduce(FoldLog(o.start, s.log).value, q.record, q.facts).Ok?
  {
    hide Timely, ValidDigest, Reduce, FoldLog, ValidFacts, Observable;
  }

  /** A client waiting elsewhere does not make a request less acceptable. */
  lemma AcceptableStill(o: Origin, s: System, t: System, q: Request)
    requires Acceptable(o, s, q) && t.d.run == s.d.run && t.log == s.log
    ensures Acceptable(o, t, q)
  {
    hide Timely, ValidDigest, Reduce, FoldLog, ValidFacts, Observable;
  }

  // ---- Two clients with the same request ----------------------------------------------------------------------

  /** Two clients submitted this request; one was applied and the other refused. */
  ghost predicate OneAppliedOneRefused(s: System, q: Request, error: IngestError) {
    exists a, b {:trigger s.clients[a], s.clients[b]} :: a in s.clients && b in s.clients
      && s.clients[a].Answered? && s.clients[a].q == q && IsApplied(s.clients[a].reply)
      && s.clients[b] == Answered(q, Refused(error))
  }

  ghost predicate CanRefuseRetry(o: Origin, s: System, q: Request, error: IngestError) {
    exists t :: Attainable(o, t) && s.log + [q] == t.log && OneAppliedOneRefused(t, q, error)
  }

  lemma RefusesRetry(o: Origin, s: System, t: System, a: nat, b: nat, q: Request, error: IngestError)
    requires Attainable(o, t) && t.log == s.log + [q] && a in t.clients && b in t.clients
    requires t.clients[a].Answered? && t.clients[a].q == q && IsApplied(t.clients[a].reply) && t.clients[b] == Answered(q, Refused(error))
    ensures CanRefuseRetry(o, s, q, error)
  {
    hide Attainable;
    assert OneAppliedOneRefused(t, q, error);
  }

  /** One client reads the cursor row, another's identical record is accepted, and the first reads the evidence. */
  lemma RowBeforeEvidence(o: Origin, s: System, a: nat, b: nat, q: Request) returns (t: System)
    requires Attainable(o, s) && Acceptable(o, s, q) && a !in s.clients && b !in s.clients && a != b
    ensures Attainable(o, t) && t.log == s.log + [q] && a in t.clients && b in t.clients
    ensures t.clients[a].Answered? && t.clients[a].q == q && IsApplied(t.clients[a].reply)
    ensures t.clients[b] == Admit(q, s.d.run, StateFrom(s.d.cursor, StoredOutcome(t.d)))
    ensures !IsAppliedClient(t.clients[b])
  {
    hide Attainable, Acceptable, IngestAlone, StateFrom, StoredOutcome, Admit, Leads, Called;
    AcceptableSays(o, s, q);
    CursorReadAttains(o, s, b, q);
    var s1 := CursorRead(s, b, q);
    AcceptableStill(o, s, s1, q);
    CallAttains(o, s1, a, q);
    var s2 := Called(s1, a, q);
    var c := s2.clients[b];
    CursorRest(s2.d, |s2.log|, q, c.run, c.row, c.at);
    var e := Admit(q, c.run, StateFrom(c.row, StoredOutcome(s2.d)));
    LeadsAttains(o, s2, b, s2.d, e);
    AdmitNeverApplies(q, c.run, StateFrom(c.row, StoredOutcome(s2.d)));
    t := MovedOn(s2, b, s2.d, e);
  }

  predicate IsAppliedClient(c: Client) {
    c.Answered? && IsApplied(c.reply)
  }

  lemma AdmitNeverApplies(q: Request, run: EvaluationRun, state: Result<IngestState, IngestError>)
    ensures !IsAppliedClient(Admit(q, run, state))
  {
    hide ValidFacts;
  }

  lemma LateRow(q: Request, run: EvaluationRun, row: Cursor, outcome: Result<Option<StoredEvidence>, IngestError>, evidence: StoredEvidence)
    requires outcome == Ok(Some(evidence)) || outcome == Err(ErrStoreCorrupt)
    requires row.next == evidence.aggregate.recordCount
    ensures Admit(q, run, StateFrom(Some(row), outcome)) == Answered(q, Refused(ErrStoreCorrupt))
  {
    hide ValidDigest;
  }

  lemma NoRow(q: Request, run: EvaluationRun, outcome: Result<Option<StoredEvidence>, IngestError>, evidence: StoredEvidence)
    requires outcome == Ok(Some(evidence)) && q.sequence == evidence.aggregate.recordCount
    ensures Admit(q, run, StateFrom(None, outcome)) == Answered(q, Refused(ErrSequence))
  {
  }

  lemma StoredAfterAccept(o: Origin, s: System)
    requires StoreInvariant(o, s) && s.log != []
    ensures s.d.evidence.Some? && s.d.evidence.value.aggregate.recordCount + 1 == CursorOf(o, s.log)
    ensures StoredOutcome(s.d) == if Timely(o, s.log) then Ok(s.d.evidence) else Err(ErrStoreCorrupt)
  {
    hide StoreInvariant, StoredOutcome, Timely;
    EvidenceCount(o, s);
    StoredOutcomeHere(o, s);
    CursorIsPast(o, s.log);
  }

  /** From every reachable state of a running run that has a cursor row, and for every request it would accept: another client
      submitting the identical request can be told that the store is corrupt, whatever the sequence. */
  lemma RetryFindsStoreCorrupt(o: Origin, s: System, a: nat, b: nat, q: Request)
    requires Attainable(o, s) && Acceptable(o, s, q) && a !in s.clients && b !in s.clients && a != b && s.d.cursor.Some?
    ensures CanRefuseRetry(o, s, q, ErrStoreCorrupt)
  {
    hide Attainable, Acceptable, StateFrom, StoredOutcome, Admit, Timely;
    var t := RowBeforeEvidence(o, s, a, b, q);
    AcceptableSays(o, s, q);
    ReachedInvariant(o, s);
    ReachedInvariant(o, t);
    CursorSays(o, s);
    StoredAfterAccept(o, t);
    LateRow(q, s.d.run, s.d.cursor.value, StoredOutcome(t.d), t.d.evidence.value);
    RefusesRetry(o, s, t, a, b, q, ErrStoreCorrupt);
  }

  /** From every reachable state of a running run without a cursor row: the other client can be told that its sequence was
      accepted with different content. */
  lemma RetryFindsOtherContent(o: Origin, s: System, a: nat, b: nat, q: Request)
    requires Attainable(o, s) && Acceptable(o, s, q) && a !in s.clients && b !in s.clients && a != b && s.d.cursor.None?
    requires Timely(o, s.log + [q])
    ensures CanRefuseRetry(o, s, q, ErrSequence)
  {
    hide Attainable, Acceptable, StateFrom, StoredOutcome, Admit, Timely;
    var t := RowBeforeEvidence(o, s, a, b, q);
    AcceptableSays(o, s, q);
    ReachedInvariant(o, t);
    StoredAfterAccept(o, t);
    NoRow(q, s.d.run, StoredOutcome(t.d), t.d.evidence.value);
    RefusesRetry(o, s, t, a, b, q, ErrSequence);
  }

  lemma MarksOfPresence(s: System, id: nat, t: System, q: Request)
    requires id in s.clients && s.d.evidence.None? && t.d.evidence.Some? && id in t.clients
    requires s.clients[id] == ReadingCursor(q, s.d.run, s.d.cursor, NOTHING_READ, UNMARKED.(row := |s.log|))
    requires t.clients[id] == AfterStatement(s, id).clients[id]
    ensures !Finished(s.clients[id].seen) && t.clients[id].ReadingCursor? && !Finished(t.clients[id].seen)
    ensures var c := AfterStatement(t, id).clients[id];
            c.ReadingCursor? && Finished(c.seen) && c.q == q && c.at.hasAggregate == |s.log| && c.at.hasSnapshot == |t.log|
  {
  }

  /** From a run that began with nothing and has accepted nothing: a client that looks for the aggregate before the first
      record is accepted and for the snapshot after can be told that the store is corrupt. */
  lemma RetryFindsHalfAPair(o: Origin, s: System, a: nat, b: nat, q: Request)
    requires Attainable(o, s) && Acceptable(o, s, q) && a !in s.clients && b !in s.clients && a != b
    requires !o.stored && s.log == []
    ensures CanRefuseRetry(o, s, q, ErrStoreCorrupt)
  {
    hide Attainable, Acceptable, IngestAlone, StateFrom, EvidenceRead, Admit, Called, CursorRead, AfterStatement, Finished, AnswersAsMarked, ReadsAsOne,
         StoreInvariant;
    AcceptableSays(o, s, q);
    CursorReadAttains(o, s, b, q);
    var s1 := CursorRead(s, b, q);
    CursorReadSays(s, b, q);
    FirstStatement(s1, b);
    StatementAttains(o, s1, b);
    var s2 := AfterStatement(s1, b);
    StatementSays(s1, b);
    AcceptableStill(o, s, s2, q);
    CallAttains(o, s2, a, q);
    var s3 := Called(s2, a, q);
    ReachedInvariant(o, s1);
    ReachedInvariant(o, s3);
    StoredAfterAccept(o, s3);
    NothingStored(o, s1);
    MarksOfPresence(s1, b, s3, q);
    StatementAttains(o, s3, b);
    var s4 := AfterStatement(s3, b);
    StatementSays(s3, b);
    AnswerAttains(o, s4, b);
    TornPresenceIsCorrupt(o, s4.log, s4.clients[b], AnswerOf(s4.clients[b]));
    var t := s4.(clients := s4.clients[b := AnswerOf(s4.clients[b])]);
    RefusesRetry(o, s, t, a, b, q, ErrStoreCorrupt);
  }

  lemma CursorReadSays(s: System, id: nat, q: Request)
    ensures var t := CursorRead(s, id, q);
            && t.d == s.d && t.log == s.log
            && t.clients == s.clients[id := ReadingCursor(q, s.d.run, s.d.cursor, NOTHING_READ, UNMARKED.(row := |s.log|))]
  {
  }

  lemma FirstStatement(s: System, id: nat)
    requires id in s.clients && s.clients[id].ReadingCursor? && s.clients[id].seen == NOTHING_READ
    ensures !Finished(s.clients[id].seen)
  {
  }

  lemma StatementSays(s: System, id: nat)
    requires id in s.clients
    ensures var t := AfterStatement(s, id);
            t.d == s.d && t.log == s.log && id in t.clients && t.clients == s.clients[id := t.clients[id]]
  {
    hide ReadNext, Marked;
    match s.clients[id]
    case ReadingCursor(_, _, _, _, _) =>
    case _ => assert s.clients[id := s.clients[id]] == s.clients;
  }

  lemma NothingStored(o: Origin, s: System)
    requires StoreInvariant(o, s) && !o.stored && s.log == []
    ensures s.d.evidence.None?
  {
    hide ValidOrigin, LogSequenced, CursorIsLog, IsBlock, Observations, FedByTimely;
  }

  lemma TornPresenceIsCorrupt(o: Origin, log: seq<Request>, c: Client, e: Client)
    requires c.ReadingCursor? && AnswersAsMarked(o, log, c.q, c.row, c.at, e)
    requires !o.stored && c.at.hasAggregate == 0 < c.at.hasSnapshot
    ensures FoundCorrupt(e)
  {
    hide CompleteAt, Unmoved, Timely;
  }

  // ---- A replay that understates ------------------------------------------------------------------------------

  /** The request would saturate the collector. */
  ghost predicate Saturates(o: Origin, log: seq<Request>, q: Request) {
    && FoldLog(o.start, log).Ok? && Reduce(FoldLog(o.start, log).value, q.record, q.facts).Ok?
    && !Reduce(FoldLog(o.start, log).value, q.record, q.facts).value.collector.complete
  }

  /** A client has been told that evidence complete at its sequence was not. */
  ghost predicate UnderstatedTo(o: Origin, s: System, id: nat, q: Request) {
    && id in s.clients && s.clients[id].Answered? && s.clients[id].q == q && IsReplay(s.clients[id])
    && !s.clients[id].reply.behaviorComplete && CompleteAt(o, s.log, q.sequence)
  }

  /** Three more statements of a client that has its cursor row: both presences and the aggregate. */
  ghost function AggregateRead(s: System, id: nat): System
    requires id in s.clients
  {
    match s.clients[id]
    case ReadingCursor(q, run, row, seen, at) =>
      if s.d.evidence.None? then s
      else
        s.(clients := s.clients[id := ReadingCursor(q, run, row,
                                                    Reads(Some(true), Some(true), Some(s.d.evidence.value.aggregate), None, None),
                                                    at.(hasAggregate := |s.log|, hasSnapshot := |s.log|, aggregate := |s.log|))])
    case _ => s
  }

  lemma AggregateReadIs(s: System, id: nat)
    requires id in s.clients && s.clients[id].ReadingCursor? && s.clients[id].seen == NOTHING_READ && s.d.evidence.Some?
    ensures var s1 := AfterStatement(s, id);
            var s2 := AfterStatement(s1, id);
            && id in s1.clients && s1.clients[id].ReadingCursor? && !Finished(s1.clients[id].seen)
            && id in s2.clients && s2.clients[id].ReadingCursor? && !Finished(s2.clients[id].seen)
            && AfterStatement(s2, id) == AggregateRead(s, id)
  {
    var s1 := AfterStatement(s, id);
    var s2 := AfterStatement(s1, id);
    assert s2.clients == s.clients[id := s2.clients[id]];
    assert AfterStatement(s2, id).clients == AggregateRead(s, id).clients;
  }

  lemma AggregateReadAttains(o: Origin, s: System, id: nat)
    requires Attainable(o, s) && id in s.clients && s.clients[id].ReadingCursor? && s.clients[id].seen == NOTHING_READ
    requires s.d.evidence.Some?
    ensures Attainable(o, AggregateRead(s, id))
  {
    hide Attainable, AfterStatement, AggregateRead, Finished;
    FirstStatement(s, id);
    AggregateReadIs(s, id);
    StatementSays(s, id);
    StatementSays(AfterStatement(s, id), id);
    StatementAttains(o, s, id);
    StatementAttains(o, AfterStatement(s, id), id);
    StatementAttains(o, AfterStatement(AfterStatement(s, id), id), id);
  }

  /** The two statements left. */
  lemma SnapshotReadIs(s: System, id: nat)
    requires id in s.clients && s.clients[id].ReadingCursor? && s.d.evidence.Some?
    requires var seen := s.clients[id].seen;
             seen.hasAggregate == Some(true) && seen.hasSnapshot == Some(true) && seen.aggregate.Some? && seen.header.None? && seen.entries.None?
    ensures !Finished(s.clients[id].seen)
    ensures var s1 := AfterStatement(s, id);
            && id in s1.clients && s1.clients[id].ReadingCursor? && !Finished(s1.clients[id].seen)
            && var c := AfterStatement(s1, id).clients[id];
               c.ReadingCursor? && Finished(c.seen) && c.q == s.clients[id].q && c.row == s.clients[id].row
               && c.at == s.clients[id].at.(header := |s.log|, entries := |s.log|)
  {
  }

  lemma UnderstatingMarks(o: Origin, log: seq<Request>, q: Request, row: Option<Cursor>, at: Marks, c: Client)
    requires AnswersAsMarked(o, log, q, row, at, c) && row.Some? && q.digest == row.value.digest && log != []
    requires at.row == at.hasAggregate == at.hasSnapshot == at.aggregate == |log| - 1 && at.header == at.entries == |log|
    requires q.sequence == o.start.aggregate.recordCount + |log| - 1 && Timely(o, log[..|log| - 1]) && Holds(o, |log| - 1)
    requires !CompleteAt(o, log, o.start.aggregate.recordCount + |log|)
    ensures IsReplay(c) && !c.reply.behaviorComplete
  {
    hide Timely, CompleteAt;
  }

  lemma SaturatedIsIncomplete(o: Origin, log: seq<Request>, q: Request)
    requires Saturates(o, log, q)
    ensures !CompleteAt(o, log + [q], o.start.aggregate.recordCount + |log| + 1)
  {
    hide Reduce, FoldLog;
    FoldLogSnoc(o.start, log, q);
    assert (log + [q])[..|log| + 1] == log + [q];
  }

  lemma OneMoreRequest(log: seq<Request>, q: Request)
    ensures |log + [q]| == |log| + 1 && (log + [q])[..|log|] == log
  {
  }

  /** A client that has read its cursor row, both presences and the aggregate at this moment. */
  ghost function PartRead(s: System, q: Request, e: StoredEvidence): Client {
    ReadingCursor(q, s.d.run, s.d.cursor, Reads(Some(true), Some(true), Some(e.aggregate), None, None),
                  Marks(|s.log|, |s.log|, |s.log|, |s.log|, 0, 0))
  }

  lemma ReadToAggregate(o: Origin, s: System, id: nat, q: Request) returns (t: System)
    requires Attainable(o, s) && id !in s.clients && s.d.run.status == RunRunning && q.profile == s.d.run.profile && s.d.evidence.Some?
    ensures Attainable(o, t) && t.d == s.d && t.log == s.log && t.clients == s.clients[id := PartRead(s, q, s.d.evidence.value)]
  {
    hide Attainable, CursorRead, AggregateRead;
    CursorReadAttains(o, s, id, q);
    var s1 := CursorRead(s, id, q);
    CursorReadSays(s, id, q);
    AggregateReadAttains(o, s1, id);
    AggregateReadSays(s1, id);
    t := AggregateRead(s1, id);
  }

  lemma ReadToAnswer(o: Origin, s: System, id: nat) returns (t: System)
    requires Attainable(o, s) && id in s.clients && s.clients[id].ReadingCursor? && s.d.evidence.Some?
    requires var seen := s.clients[id].seen;
             seen.hasAggregate == Some(true) && seen.hasSnapshot == Some(true) && seen.aggregate.Some? && seen.header.None? && seen.entries.None?
    ensures Attainable(o, t) && t.log == s.log && id in t.clients && t.clients == s.clients[id := t.clients[id]]
    ensures var c := s.clients[id];
            && AnswersAsMarked(o, t.log, c.q, c.row, c.at.(header := |s.log|, entries := |s.log|), t.clients[id])
            && t.clients[id].q == c.q
  {
    hide Attainable, AfterStatement, Finished, AnswersAsMarked, Admit, AnswerOf;
    SnapshotReadIs(s, id);
    StatementAttains(o, s, id);
    var s1 := AfterStatement(s, id);
    StatementSays(s, id);
    StatementAttains(o, s1, id);
    var s2 := AfterStatement(s1, id);
    StatementSays(s1, id);
    AnswerAttains(o, s2, id);
    t := s2.(clients := s2.clients[id := AnswerOf(s2.clients[id])]);
  }

  /** From every reachable state whose evidence is complete: a retry of the last accepted request replays with its evidence
      called incomplete, when a request that saturates the collector is accepted between reading the aggregate and reading
      the snapshot row. */
  lemma SaturatedReplayUnderstates(o: Origin, s: System, a: nat, b: nat, r: Request, q: Request) returns (t: System)
    requires Attainable(o, s) && Acceptable(o, s, q) && Saturates(o, s.log, q) && a !in s.clients && b !in s.clients && a != b
    requires s.d.cursor.Some? && r.digest == s.d.cursor.value.digest && r.profile == q.profile
    requires r.sequence == CursorOf(o, s.log) - 1 && CompleteAt(o, s.log, r.sequence)
    ensures Attainable(o, t) && t.log == s.log + [q] && UnderstatedTo(o, t, b, r)
  {
    hide *;
    AcceptableSays(o, s, q);
    ReachedInvariant(o, s);
    EvidenceCount(o, s);
    var s1 := ReadToAggregate(o, s, b, r);
    AcceptableStill(o, s, s1, q);
    CallAttains(o, s1, a, q);
    var s2 := Called(s1, a, q);
    ReachedInvariant(o, s2);
    OneMoreRequest(s.log, q);
    StoredAfterAccept(o, s2);
    PartReadSays(s, r, s.d.evidence.value);
    t := ReadToAnswer(o, s2, b);
    SaturatedIsIncomplete(o, s.log, q);
    LastSequence(o, s.log, r.sequence);
    CompleteStable(o, s.log, q, r.sequence);
    RowKnownHere(o, s);
    UnderstatingMarks(o, t.log, r, s.d.cursor, PartRead(s, r, s.d.evidence.value).at.(header := |t.log|, entries := |t.log|), t.clients[b]);
    UnderstatedSays(o, t, b, r);
  }

  lemma LastSequence(o: Origin, log: seq<Request>, sequence: nat)
    ensures sequence == CursorOf(o, log) - 1 <==> sequence == o.start.aggregate.recordCount + |log|
  {
  }

  lemma PartReadSays(s: System, q: Request, e: StoredEvidence)
    ensures var c := PartRead(s, q, e);
            && c.ReadingCursor? && c.q == q && c.row == s.d.cursor
            && c.seen == Reads(Some(true), Some(true), Some(e.aggregate), None, None)
            && c.at == Marks(|s.log|, |s.log|, |s.log|, |s.log|, 0, 0)
  {
  }

  lemma UnderstatedSays(o: Origin, s: System, id: nat, q: Request)
    requires id in s.clients && IsReplay(s.clients[id]) && s.clients[id].q == q && !s.clients[id].reply.behaviorComplete
    requires CompleteAt(o, s.log, q.sequence)
    ensures UnderstatedTo(o, s, id, q)
  {
    hide CompleteAt;
  }

  lemma RowKnownHere(o: Origin, s: System)
    requires StoreInvariant(o, s) && s.d.cursor.Some?
    ensures Holds(o, |s.log|)
  {
    hide LogSequenced, EvidenceIsFold, IsBlock, ValidReduced, Observations;
  }

  lemma AggregateReadSays(s: System, id: nat)
    requires id in s.clients && s.clients[id].ReadingCursor? && s.d.evidence.Some?
    ensures var t, c := AggregateRead(s, id), s.clients[id];
            && t.d == s.d && t.log == s.log
            && t.clients == s.clients[id := ReadingCursor(c.q, c.run, c.row,
                                                          Reads(Some(true), Some(true), Some(s.d.evidence.value.aggregate), None, None),
                                                          c.at.(hasAggregate := |s.log|, hasSnapshot := |s.log|, aggregate := |s.log|))]
  {
  }

  // ---- A twin that has been admitted --------------------------------------------------------------------------

  lemma AdmitsNext(q: Request, run: EvaluationRun, state: Result<IngestState, IngestError>)
    requires state.Ok? && state.value.next == q.sequence && ValidFacts(q.facts)
    ensures Admit(q, run, state) == ReadingEvidence(q, run, q.sequence, NOTHING_READ, UNMARKED)
  {
    hide ValidFacts;
  }

  lemma NotAnswered(s: System, id: nat, after: Durable, e: Client)
    requires id in s.clients && !IsAppliedClient(e)
    ensures MovedOn(s, id, after, e) == System(after, s.clients[id := e], s.log)
  {
  }

  /** An acceptable request left undisturbed is admitted. */
  lemma AdmittedAttains(o: Origin, s: System, id: nat, q: Request) returns (t: System)
    requires Attainable(o, s) && Acceptable(o, s, q) && id !in s.clients
    ensures Attainable(o, t) && t.d == s.d && t.log == s.log
    ensures t.clients == s.clients[id := ReadingEvidence(q, s.d.run, q.sequence, NOTHING_READ, UNMARKED)]
  {
    hide Attainable, Acceptable, StateFrom, StoredOutcome, Admit, Leads, StoreInvariant, Timely, MovedOn, IsAppliedClient, ValidFacts, CursorOf,
         ValidDigest, Observable, Reduce, FoldLog;
    AcceptableSays(o, s, q);
    ReachedInvariant(o, s);
    StateOfStore(o, s);
    CursorReadAttains(o, s, id, q);
    var s1 := CursorRead(s, id, q);
    CursorRest(s1.d, |s1.log|, q, s.d.run, s.d.cursor, s1.clients[id].at);
    AdmitsNext(q, s.d.run, StateOf(s.d));
    var e := Admit(q, s.d.run, StateOf(s.d));
    LeadsAttains(o, s1, id, s1.d, e);
    AdmitNeverApplies(q, s.d.run, StateOf(s.d));
    NotAnswered(s1, id, s1.d, e);
    t := MovedOn(s1, id, s1.d, e);
    assert t.clients == s.clients[id := e];
  }

  lemma GatheredThere(o: Origin, s: System, q: Request)
    requires StoreInvariant(o, s) && Timely(o, s.log)
    ensures FoldLog(o.start, s.log).Ok?
    ensures Gathered(q, q.sequence, StoredOutcome(s.d), s.d.run.environment) == Prepare(q, q.sequence, Ok(FoldLog(o.start, s.log).value))
  {
    hide StoreInvariant, StoredOutcome, Timely, Prepare, FoldLog, Current, Gathered;
    StoredOutcomeHere(o, s);
    CurrentIsFold(o, s);
    GatheredIs(q, q.sequence, StoredOutcome(s.d), s.d.run.environment);
  }

  /** An admitted client reads the evidence undisturbed and folds its record. */
  lemma FoldAttains(o: Origin, s: System, id: nat, q: Request) returns (t: System)
    requires Attainable(o, s) && id in s.clients && s.clients[id] == ReadingEvidence(q, s.d.run, q.sequence, NOTHING_READ, UNMARKED)
    requires Timely(o, s.log)
    ensures FoldLog(o.start, s.log).Ok?
    ensures Attainable(o, t) && t.d == s.d && t.log == s.log
    ensures t.clients == s.clients[id := Prepare(q, q.sequence, Ok(FoldLog(o.start, s.log).value))]
  {
    hide Attainable, Leads, StoreInvariant, Timely, MovedOn, IsAppliedClient, Gathered, StoredOutcome, Prepare, FoldLog;
    ReachedInvariant(o, s);
    GatheredThere(o, s, q);
    EvidencePhase(s.d, |s.log|, q, q.sequence);
    var e := Prepare(q, q.sequence, Ok(FoldLog(o.start, s.log).value));
    LeadsAttains(o, s, id, s.d, e);
    PrepareNeverApplies(q, Ok(FoldLog(o.start, s.log).value));
    NotAnswered(s, id, s.d, e);
    t := MovedOn(s, id, s.d, e);
  }

  lemma PrepareNeverApplies(q: Request, current: Result<Reduced, IngestError>)
    ensures !IsAppliedClient(Prepare(q, q.sequence, current))
  {
    hide Reduce, Observable, CommitFor;
  }

  lemma PrepareSays(q: Request, x: Reduced)
    ensures Reduce(x, q.record, q.facts).Err? ==>
              Prepare(q, q.sequence, Ok(x)) == Answered(q, Refused(Reduce(x, q.record, q.facts).error))
    ensures Reduce(x, q.record, q.facts).Ok? && Observable(q) ==>
              Prepare(q, q.sequence, Ok(x)) == Prepared(q, CommitFor(q, q.sequence, x, Reduce(x, q.record, q.facts).value))
  {
    hide Reduce, Observable, CommitFor;
  }

  /** A prepared client's commit, where it does not write. */
  lemma CommitAttains(o: Origin, s: System, id: nat, q: Request, commit: Commit) returns (t: System)
    requires Attainable(o, s) && id in s.clients && s.clients[id] == Prepared(q, commit)
    ensures q.sequence <= CursorOf(o, s.log)
    ensures !IsApplied(CommitAnswer(o, s, q)) ==>
              Attainable(o, t) && t.d == s.d && t.log == s.log && t.clients == s.clients[id := Answered(q, CommitAnswer(o, s, q))]
  {
    hide Attainable, Leads, Invariant, StoreInvariant, ClientInvariant, MovedOn, CommitAnswer, CommitSpec, CursorOf, ReplyTo;
    ReachedInvariant(o, s);
    InvariantSays(o, s, id);
    CommitAnswered(o, s, q, commit);
    LeadsOneStep(s.d, |s.log|, s.clients[id]);
    PreparedStep(s.d, |s.log|, q, commit);
    var e := Answered(q, CommitAnswer(o, s, q));
    LeadsAttains(o, s, id, CommitSpec(s.d, commit).0, e);
    t := MovedOn(s, id, CommitSpec(s.d, commit).0, e);
    if !IsApplied(CommitAnswer(o, s, q)) {
      NotAnswered(s, id, CommitSpec(s.d, commit).0, e);
    }
  }

  /** From every attainable state, where an acceptable request does not fold a second time: a twin that was admitted before the
      request was accepted folds the record onto itself, and can be refused with whatever that fold says. */
  lemma RetryFailsToFold(o: Origin, s: System, a: nat, b: nat, q: Request, x: Reduced, e: IngestError)
    requires Attainable(o, s) && Acceptable(o, s, q) && a !in s.clients && b !in s.clients && a != b && Timely(o, s.log + [q])
    requires FoldLog(o.start, s.log + [q]) == Ok(x) && Reduce(x, q.record, q.facts) == Err(e)
    ensures CanRefuseRetry(o, s, q, e)
  {
    hide *;
    AcceptableSays(o, s, q);
    var s1 := AdmittedAttains(o, s, b, q);
    AcceptableStill(o, s, s1, q);
    CursorWithin(o, s.log, q);
    CallAttains(o, s1, a, q);
    var s2 := Called(s1, a, q);
    var t := FoldAttains(o, s2, b, q);
    PrepareSays(q, x);
    RefusesRetry(o, s, t, a, b, q, e);
  }

  lemma CursorWithin(o: Origin, log: seq<Request>, q: Request)
    requires q.sequence == CursorOf(o, log)
    ensures CursorOf(o, log) <= MAX_UINT64 && CursorOf(o, log + [q]) == q.sequence + 1
  {
  }

  /** One client has prepared its commit while the other's identical record was accepted. */
  lemma PreparedBeforeAccept(o: Origin, s: System, a: nat, b: nat, q: Request) returns (t: System, commit: Commit)
    requires Attainable(o, s) && Acceptable(o, s, q) && a !in s.clients && b !in s.clients && a != b
    ensures Attainable(o, t) && t.log == s.log + [q] && t.d.run == s.d.run && t.clients.Keys == s.clients.Keys + {a, b}
    ensures t.clients[a].Answered? && t.clients[a].q == q && IsApplied(t.clients[a].reply) && t.clients[b] == Prepared(q, commit)
  {
    hide *;
    AcceptableSays(o, s, q);
    var s1 := AdmittedAttains(o, s, b, q);
    var s2 := FoldAttains(o, s1, b, q);
    var x := FoldLog(o.start, s.log).value;
    PrepareSays(q, x);
    commit := CommitFor(q, q.sequence, x, Reduce(x, q.record, q.facts).value);
    AcceptableStill(o, s, s2, q);
    CursorWithin(o, s.log, q);
    CallAttains(o, s2, a, q);
    t := Called(s2, a, q);
  }

  /** From every attainable state a twin that was admitted in time replays when it loses the race to commit, with a cursor row
      or without one. */
  lemma RetryReplaysAtCommit(o: Origin, s: System, a: nat, b: nat, q: Request)
    requires Attainable(o, s) && Acceptable(o, s, q) && a !in s.clients && b !in s.clients && a != b && Timely(o, s.log + [q])
    ensures exists t :: Attainable(o, t) && s.log + [q] == t.log && OneAppliedOneReplayed(t, q)
  {
    hide *;
    AcceptableSays(o, s, q);
    CursorWithin(o, s.log, q);
    var s1, commit := PreparedBeforeAccept(o, s, a, b, q);
    LastReplays(o, s, s1, q);
    var t := CommitAttains(o, s1, b, q, commit);
    ReplayedSays(t, a, b, q);
  }

  /** Two clients submitted this request; one was applied and the other replayed. */
  ghost predicate OneAppliedOneReplayed(s: System, q: Request) {
    exists a, b {:trigger s.clients[a], s.clients[b]} :: a in s.clients && b in s.clients
      && s.clients[a].Answered? && s.clients[a].q == q && IsApplied(s.clients[a].reply)
      && IsReplay(s.clients[b]) && s.clients[b].q == q
  }

  lemma ReplayedSays(s: System, a: nat, b: nat, q: Request)
    requires a in s.clients && b in s.clients && s.clients[a].Answered? && s.clients[a].q == q && IsApplied(s.clients[a].reply)
    requires s.clients[b].Answered? && s.clients[b].q == q && s.clients[b].reply.Success? && s.clients[b].reply.replayed
    ensures OneAppliedOneReplayed(s, q)
  {
    assert IsReplay(s.clients[b]);
  }

  lemma LastReplays(o: Origin, s: System, t: System, q: Request)
    requires t.log == s.log + [q] && q.sequence == CursorOf(o, s.log) < MAX_UINT64 && ValidDigest(q.digest) && Timely(o, t.log)
    ensures q.sequence <= CursorOf(o, t.log)
    ensures CommitAnswer(o, t, q).Success? && CommitAnswer(o, t, q).replayed && !IsApplied(CommitAnswer(o, t, q))
  {
    hide Timely, ValidDigest, CompleteAt;
    DigestStable(o, s.log, q, q.sequence);
  }

  lemma FallenBehind(o: Origin, s: System, t: System, q: Request, r: Request)
    requires t.log == s.log + [q] + [r] && q.sequence == CursorOf(o, s.log) < MAX_UINT64 && ValidDigest(q.digest) && Timely(o, s.log + [q])
    ensures q.sequence <= CursorOf(o, t.log) && CommitAnswer(o, t, q) == Refused(ErrSequence) && !IsApplied(CommitAnswer(o, t, q))
  {
    hide ValidDigest, CompleteAt;
    TimelyOneMore(o, s.log + [q], r);
  }

  /** From every attainable state: a twin that has prepared its commit finds the cursor two past its sequence, when a further
      record is accepted before it commits, and is told that its sequence is out of order. */
  lemma RetryFallsTwoBehind(o: Origin, s: System, a: nat, b: nat, c: nat, q: Request, r: Request)
    requires Attainable(o, s) && Acceptable(o, s, q) && Acceptable(o, s.(log := s.log + [q]), r)
    requires a !in s.clients && b !in s.clients && c !in s.clients && a != b && b != c && c != a
    ensures exists t :: Attainable(o, t) && s.log + [q] + [r] == t.log && OneAppliedOneRefused(t, q, ErrSequence)
  {
    hide *;
    AcceptableSays(o, s, q);
    AcceptableSays(o, s.(log := s.log + [q]), r);
    var s1, commit := PreparedBeforeAccept(o, s, a, b, q);
    AcceptableStill(o, s.(log := s.log + [q]), s1, r);
    CursorWithin(o, s1.log, r);
    CallAttains(o, s1, c, r);
    var s2 := Called(s1, c, r);
    FallenBehind(o, s, s2, q, r);
    var t := CommitAttains(o, s2, b, q, commit);
    RefusedSays(t, a, b, q, ErrSequence);
  }

  lemma RefusedSays(s: System, a: nat, b: nat, q: Request, error: IngestError)
    requires a in s.clients && b in s.clients && s.clients[a].Answered? && s.clients[a].q == q && IsApplied(s.clients[a].reply)
    requires s.clients[b] == Answered(q, Refused(error))
    ensures OneAppliedOneRefused(s, q, error)
  {
  }
}
