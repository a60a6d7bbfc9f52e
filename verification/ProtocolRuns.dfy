/** The ingest protocol over whole executions: what the store holds at every moment, why a success reply is a permanent
    fact, and what a finished run can no longer do. */
module ProtocolRuns {
  import opened Bounded
  import opened Ordering
  import opened Aggregate
  import opened Collector
  import opened Evidence
  import opened Runs
  import opened Counting
  import opened Retention
  import opened Ingest
  import opened Protocol
  import opened ProtocolSafety

  // ---- The invariant is inductive -----------------------------------------------------------------------------

  lemma InitIsFold(o: Origin, s: System)
    requires Init(o, s)
    ensures EvidenceIsFold(o, s)
  {
    hide ValidReduced, IsBlock, SnapshotOf, Empty;
  }

  lemma InitIsBlock(o: Origin, s: System)
    requires Init(o, s)
    ensures IsBlock(s.d.retained, o.start.aggregate.recordCount + 1, Observations(o.start, s.log))
  {
    hide ValidReduced, SnapshotOf, Empty;
  }

  lemma InitEstablishes(o: Origin, s: System)
    requires Init(o, s)
    ensures Invariant(o, s)
  {
    hide ValidReduced, IsBlock, SnapshotOf, Empty, EvidenceIsFold, Observations, ValidDigest;
    InitIsFold(o, s);
    InitIsBlock(o, s);
  }

  lemma ArriveKeeps(o: Origin, s: System, id: nat, q: Request, t: System)
    requires Invariant(o, s) && Next(s, Arrive(id, q), t)
    ensures Invariant(o, t)
  {
    hide LogSequenced, EvidenceIsFold, CursorIsLog, IsBlock, ValidOrigin;
    forall k {:trigger t.clients[k]} | k in t.clients ensures ClientInvariant(o, t, t.clients[k]) {
      if k != id {
        SameLogKeeps(o, s, t, s.clients[k]);
      }
    }
    StoreFollows(o, s, t);
  }

  /** The store invariant speaks of the log, the rows and the run's environment only. */
  lemma StoreFollows(o: Origin, s: System, t: System)
    requires StoreInvariant(o, s) && t.log == s.log && t.d.evidence == s.d.evidence && t.d.cursor == s.d.cursor
    requires t.d.retained == s.d.retained && t.d.run.environment == s.d.run.environment
    ensures StoreInvariant(o, t)
  {
    hide LogSequenced, IsBlock, ValidOrigin, ValidReduced, SnapshotOf;
  }

  lemma LifecycleKeeps(o: Origin, s: System, previous: EvaluationRun, next: EvaluationRun, t: System)
    requires Invariant(o, s) && Next(s, Lifecycle(previous, next), t)
    ensures Invariant(o, t)
  {
    hide StoreInvariant, ClientInvariant, ValidTransition;
    TransitionMovesForward(previous, next);
    StoreFollows(o, s, t);
    forall k {:trigger t.clients[k]} | k in t.clients ensures ClientInvariant(o, t, t.clients[k]) {
      SameLogKeeps(o, s, t, s.clients[k]);
    }
  }

  /** A step that writes nothing keeps its own client's invariant. */
  lemma QuietStepKeepsOwn(o: Origin, s: System, c: Client)
    requires StoreInvariant(o, s) && ClientInvariant(o, s, c) && !c.Prepared?
    ensures ClientStep(s.d, |s.log|, c).0 == s.d && !Accepts(s.d, c)
    ensures ClientInvariant(o, s, ClientStep(s.d, |s.log|, c).1)
  {
    hide StoreInvariant, CheckRun, Admit, Gathered, StateFrom, EvidenceRead, ReadNext, Finished, RowAfter, ReadAt, SaysAccepted,
         CommitSpec, NOTHING_READ, Marked;
    match c
    case Submitted(q) => RunReadKeeps(o, s, q);
    case RunSeen(q, run) => CursorReadKeeps(o, s, q, run);
    case ReadingCursor(q, run, row, seen, at) =>
      if Finished(seen) {
        AdmitKeeps(o, s, q, run, row, seen, at);
      } else {
        StatementKeepsCursorReader(o, s, q, run, row, seen, at);
      }
    case ReadingEvidence(q, run, next, seen, at) =>
      if Finished(seen) {
        GatherKeeps(o, s, q, run, next, seen, at);
      } else {
        StatementKeepsEvidenceReader(o, s, q, run, next, seen, at);
      }
    case Answered(_, _) =>
  }

  lemma StepSays(s: System, id: nat, t: System)
    requires Next(s, Step(id), t)
    ensures id in s.clients
    ensures t.d == ClientStep(s.d, |s.log|, s.clients[id]).0 && t.clients == s.clients[id := ClientStep(s.d, |s.log|, s.clients[id]).1]
    ensures t.log == if Accepts(s.d, s.clients[id]) then s.log + [s.clients[id].q] else s.log
  {
    hide ClientStep, Accepts;
  }

  lemma PreparedStep(d: Durable, now: nat, q: Request, commit: Commit)
    ensures ClientStep(d, now, Prepared(q, commit)) == (CommitSpec(d, commit).0, Answered(q, ReplyTo(CommitSpec(d, commit).1)))
  {
    hide CommitSpec, ReplyTo;
  }

  /** A success the commit transaction decided says of the behavioral evidence what was true at its sequence. */
  ghost predicate CommitAnswerRight(o: Origin, t: System, id: nat) {
    && id in t.clients && t.clients[id].Answered?
    && (t.clients[id].reply.Success? ==> SaysRight(o, t.log, t.clients[id].q, t.clients[id].reply))
  }

  lemma AnswerRight(o: Origin, t: System, id: nat, q: Request, r: Result<CommitResult, IngestError>)
    requires id in t.clients && t.clients[id] == Answered(q, ReplyTo(r)) && (r.Ok? ==> SaysRight(o, t.log, q, ReplyTo(r)))
    ensures CommitAnswerRight(o, t, id)
  {
    hide SaysRight;
  }

  /** What one client's step does to the store and to that client. */
  lemma StepKeepsOwn(o: Origin, s: System, id: nat, t: System)
    requires StoreInvariant(o, s) && Next(s, Step(id), t) && id in s.clients && ClientInvariant(o, s, s.clients[id])
    ensures StoreInvariant(o, t) && id in t.clients && ClientInvariant(o, t, t.clients[id])
    ensures !Accepts(s.d, s.clients[id]) ==> t.d == s.d && t.log == s.log
    ensures s.clients[id].Prepared? ==> CommitAnswerRight(o, t, id)
  {
    hide *;
    StepSays(s, id, t);
    var c := s.clients[id];
    if c.Prepared? {
      PreparedStep(s.d, |s.log|, c.q, c.commit);
      CommitKeepsOwn(o, s, t, c.q, c.commit);
      AnswerRight(o, t, id, c.q, CommitSpec(s.d, c.commit).1);
      if Accepts(s.d, c) {
        AcceptedKeepsStore(o, s, t, c.q, c.commit);
      } else {
        CommitElsewise(o, s, c.q, c.commit);
        StoreFollows(o, s, t);
      }
    } else {
      QuietStepKeepsOwn(o, s, c);
      StoreFollows(o, s, t);
      SameLogKeeps(o, s, t, ClientStep(s.d, |s.log|, c).1);
    }
  }

  lemma StepKeeps(o: Origin, s: System, id: nat, t: System)
    requires Invariant(o, s) && Next(s, Step(id), t)
    ensures Invariant(o, t)
  {
    hide StoreInvariant, ClientInvariant, ClientStep, Accepts, Next;
    StepSays(s, id, t);
    StepKeepsOwn(o, s, id, t);
    forall k {:trigger t.clients[k]} | k in t.clients ensures ClientInvariant(o, t, t.clients[k]) {
      if k != id {
        if Accepts(s.d, s.clients[id]) {
          AcceptedKeepsOthers(o, s, t, s.clients[id].q, s.clients[k]);
        } else {
          SameLogKeeps(o, s, t, s.clients[k]);
        }
      }
    }
  }

  /** Every step of every client and every life-cycle write keeps the invariant. */
  lemma NextKeeps(o: Origin, s: System, a: Action, t: System)
    requires Invariant(o, s) && Next(s, a, t)
    ensures Invariant(o, t)
  {
    hide *;
    match a
    case Arrive(id, q) => ArriveKeeps(o, s, id, q, t);
    case Step(id) => StepKeeps(o, s, id, t);
    case Lifecycle(previous, next) => LifecycleKeeps(o, s, previous, next, t);
  }

  // ---- Executions ---------------------------------------------------------------------------------------------

  ghost predicate StepAt(states: seq<System>, actions: seq<Action>, i: nat)
    requires i < |actions| && |states| == |actions| + 1
  {
    Next(states[i], actions[i], states[i + 1])
  }

  ghost predicate Execution(o: Origin, states: seq<System>, actions: seq<Action>) {
    && |states| == |actions| + 1 && Init(o, states[0])
    && forall i: nat | i < |actions| :: StepAt(states, actions, i)
  }

  lemma StepOf(o: Origin, states: seq<System>, actions: seq<Action>, i: nat)
    requires Execution(o, states, actions) && i < |actions|
    ensures Next(states[i], actions[i], states[i + 1])
  {
    hide Next, Init;
    assert StepAt(states, actions, i);
  }

  lemma {:induction false} InvariantAt(o: Origin, states: seq<System>, actions: seq<Action>, i: nat)
    requires Execution(o, states, actions) && i < |states|
    ensures Invariant(o, states[i])
  {
    hide Next, Init, Invariant;
    if i == 0 {
      InitEstablishes(o, states[0]);
    } else {
      InvariantAt(o, states, actions, i - 1);
      StepOf(o, states, actions, i - 1);
      NextKeeps(o, states[i - 1], actions[i - 1], states[i]);
    }
  }

  /** The cursor stands one past the accepted requests, which carry consecutive sequences; the stored evidence is their
      one continuous reduction, although each request's client rebuilt its collector from the stored snapshot; and the
      observation rows are the gap-free block that reduction leaves. */
  ghost predicate StoreIsReduction(o: Origin, s: System) {
    && FoldLog(o.start, s.log).Ok?
    && (if !o.stored && s.log == [] then s.d.evidence.None? else s.d.evidence == Some(EvidenceOf(FoldLog(o.start, s.log).value)))
    && (s.d.cursor.None? <==> o.cursorDigest.None? && s.log == [])
    && (s.d.cursor.Some? ==> s.d.cursor.value.next == o.start.aggregate.recordCount + |s.log| + 1)
    && (forall k | 0 <= k < |s.log| :: s.log[k].sequence == o.start.aggregate.recordCount + 1 + k)
    && IsBlock(s.d.retained, o.start.aggregate.recordCount + 1, Observations(o.start, s.log))
  }

  lemma InvariantIsReduction(o: Origin, s: System)
    requires StoreInvariant(o, s)
    ensures StoreIsReduction(o, s)
  {
    hide IsBlock, ValidReduced, EvidenceOf, Observations, ValidDigest;
  }

  /** In every interleaving of any number of clients with the life cycle, at every moment. */
  lemma StoreIsReductionOfLog(o: Origin, states: seq<System>, actions: seq<Action>, i: nat)
    requires Execution(o, states, actions) && i < |states|
    ensures StoreIsReduction(o, states[i])
  {
    hide *;
    InvariantAt(o, states, actions, i);
    InvariantSays(o, states[i], 0);
    InvariantIsReduction(o, states[i]);
  }

  lemma StepGrowsLog(o: Origin, s: System, a: Action, t: System)
    requires Invariant(o, s) && Next(s, a, t)
    ensures s.log <= t.log && |t.log| <= |s.log| + 1
    ensures t.log != s.log ==> s.d.run.status == RunRunning
    ensures t.log == s.log ==> t.d.evidence == s.d.evidence && t.d.cursor == s.d.cursor && t.d.retained == s.d.retained
  {
    hide Invariant, StoreInvariant, ClientInvariant, ClientStep, Accepts;
    match a
    case Arrive(_, _) =>
    case Lifecycle(_, _) =>
    case Step(id) =>
      InvariantSays(o, s, id);
      StepSays(s, id, t);
      StepKeepsOwn(o, s, id, t);
      AcceptsOnlyRunning(o, s, s.clients[id]);
  }

  lemma InvariantSays(o: Origin, s: System, id: nat)
    requires Invariant(o, s)
    ensures StoreInvariant(o, s) && (id in s.clients ==> ClientInvariant(o, s, s.clients[id]))
  {
    hide StoreInvariant, ClientInvariant;
  }

  lemma AcceptsOnlyRunning(o: Origin, s: System, c: Client)
    requires StoreInvariant(o, s) && ClientInvariant(o, s, c)
    ensures Accepts(s.d, c) ==> s.d.run.status == RunRunning
  {
    hide StoreInvariant, ClientInvariant, CommitSpec;
    if c.Prepared? {
      CommitLandsExactly(o, s, c.q, c.commit);
    }
  }

  lemma {:induction false} LogGrows(o: Origin, states: seq<System>, actions: seq<Action>, i: nat, j: nat)
    requires Execution(o, states, actions) && i <= j < |states|
    ensures states[i].log <= states[j].log
  {
    hide StepAt, Next, Init, Invariant;
    if i < j {
      LogGrows(o, states, actions, i, j - 1);
      InvariantAt(o, states, actions, j - 1);
      StepOf(o, states, actions, j - 1);
      StepGrowsLog(o, states[j - 1], actions[j - 1], states[j]);
    }
  }

  lemma DigestInExtension(o: Origin, a: seq<Request>, b: seq<Request>, sequence: nat)
    requires a <= b && DigestAt(o, a, sequence).Some?
    ensures DigestAt(o, b, sequence) == DigestAt(o, a, sequence)
  {
  }

  /** The log holds the digest at the sequence and the sequence at one position only, or the run began with it. */
  ghost predicate HeldOnce(o: Origin, log: seq<Request>, sequence: nat, digest: string) {
    && (if sequence == o.start.aggregate.recordCount then o.cursorDigest == Some(digest)
        else exists k :: 0 <= k < |log| && log[k].sequence == sequence && log[k].digest == digest)
    && forall k, m | 0 <= k < m < |log| :: log[k].sequence != log[m].sequence
  }

  lemma KnownDigestIsHeldOnce(o: Origin, log: seq<Request>, sequence: nat, digest: string)
    requires LogSequenced(o, log) && DigestAt(o, log, sequence) == Some(digest)
    ensures HeldOnce(o, log, sequence, digest)
  {
    hide ValidDigest;
    if sequence != o.start.aggregate.recordCount {
      assert log[sequence - o.start.aggregate.recordCount - 1].sequence == sequence;
    }
  }

  lemma AnswerSays(o: Origin, s: System, id: nat, q: Request, reply: Reply)
    requires Invariant(o, s) && id in s.clients && s.clients[id] == Answered(q, reply)
    ensures reply.Success? ==> SaysAccepted(o, s.log, q, reply)
  {
    hide StoreInvariant, SaysAccepted;
    InvariantSays(o, s, id);
  }

  lemma CompleteInExtension(o: Origin, a: seq<Request>, b: seq<Request>, sequence: nat)
    requires a <= b && sequence < CursorOf(o, a)
    ensures CompleteAt(o, b, sequence) <==> CompleteAt(o, a, sequence)
  {
    hide FoldLog;
    var k := sequence - o.start.aggregate.recordCount;
    if 0 <= k {
      assert b[..k] == a[..k];
    }
  }

  /** The reply's numbers follow from its sequence, the log holds its digest there exactly once, and evidence it called
      complete was complete there; an applied record's reply says exactly whether it was. */
  ghost predicate PermanentFact(o: Origin, log: seq<Request>, q: Request, reply: Reply) {
    && reply.Success? && reply.next == q.sequence + 1 && reply.recordCount == q.sequence
    && HeldOnce(o, log, q.sequence, q.digest)
    && (reply.behaviorComplete ==> CompleteAt(o, log, q.sequence))
    && (!reply.replayed ==> SaysRight(o, log, q, reply))
  }

  lemma AcceptedIsPermanent(o: Origin, a: seq<Request>, b: seq<Request>, q: Request, reply: Reply)
    requires SaysAccepted(o, a, q, reply) && a <= b && LogSequenced(o, b)
    ensures PermanentFact(o, b, q, reply)
  {
    hide CompleteAt, HeldOnce, DigestAt, LogSequenced;
    DigestWithin(o, a, q.sequence);
    DigestInExtension(o, a, b, q.sequence);
    KnownDigestIsHeldOnce(o, b, q.sequence, q.digest);
    CompleteInExtension(o, a, b, q.sequence);
  }

  /** Every success reply, applied or replayed, stays true from then on, in every continuation of the execution. */
  lemma SuccessIsPermanent(o: Origin, states: seq<System>, actions: seq<Action>, i: nat, j: nat, id: nat, q: Request, reply: Reply)
    requires Execution(o, states, actions) && i <= j < |states|
    requires id in states[i].clients && states[i].clients[id] == Answered(q, reply) && reply.Success?
    ensures PermanentFact(o, states[j].log, q, reply)
  {
    hide *;
    InvariantAt(o, states, actions, i);
    AnswerSays(o, states[i], id, q, reply);
    LogGrows(o, states, actions, i, j);
    InvariantAt(o, states, actions, j);
    InvariantSays(o, states[j], id);
    OriginSays(o, states[j]);
    AcceptedIsPermanent(o, states[i].log, states[j].log, q, reply);
  }

  /** A replay, whether found while reading or by losing the race to commit, leaves every row and the log as they were. */
  lemma ReplayChangesNothing(o: Origin, s: System, id: nat, t: System)
    requires Invariant(o, s) && Next(s, Step(id), t) && id in t.clients
    requires t.clients[id].Answered? && t.clients[id].reply.Success? && t.clients[id].reply.replayed
    ensures t.d == s.d && t.log == s.log
  {
    hide Invariant, StoreInvariant, ClientInvariant, ClientStep, CommitSpec, Accepts;
    StepSays(s, id, t);
    InvariantSays(o, s, id);
    StepKeepsOwn(o, s, id, t);
    AcceptedSaysApplied(o, s, s.clients[id]);
  }

  lemma AcceptedSaysApplied(o: Origin, s: System, c: Client)
    ensures Accepts(s.d, c) ==> ClientStep(s.d, |s.log|, c).1.Answered? && ClientStep(s.d, |s.log|, c).1.reply.Success?
                                && !ClientStep(s.d, |s.log|, c).1.reply.replayed
  {
    hide CommitSpec;
  }

  predicate Over(status: RunStatus) {
    status != RunPending && status != RunRunning
  }

  /** Once a run has left Running nothing is ever appended, and no stored row of it changes. */
  lemma {:induction false} FinishedRunIsFrozen(o: Origin, states: seq<System>, actions: seq<Action>, i: nat, j: nat)
    requires Execution(o, states, actions) && i <= j < |states| && Over(states[i].d.run.status)
    ensures states[j].log == states[i].log && states[j].d == states[i].d
  {
    hide StepAt, Next, Init, Invariant;
    if i < j {
      FinishedRunIsFrozen(o, states, actions, i, j - 1);
      InvariantAt(o, states, actions, j - 1);
      StepOf(o, states, actions, j - 1);
      StepGrowsLog(o, states[j - 1], actions[j - 1], states[j]);
      RunChangesOnlyByTransition(o, states[j - 1], actions[j - 1], states[j]);
    }
  }

  lemma RunChangesOnlyByTransition(o: Origin, s: System, a: Action, t: System)
    requires Invariant(o, s) && Next(s, a, t)
    ensures t.d.run == s.d.run || (a.Lifecycle? && ValidTransition(s.d.run, t.d.run) && t.log == s.log)
    ensures Over(s.d.run.status) ==> t.d.run == s.d.run
  {
    hide Invariant, StoreInvariant, ClientInvariant, ClientStep, Accepts;
    match a
    case Arrive(_, _) =>
    case Lifecycle(previous, next) =>
    case Step(id) =>
      StepSays(s, id, t);
      StepKeepsRun(s.d, |s.log|, s.clients[id]);
  }

  lemma StepKeepsRun(d: Durable, now: nat, c: Client)
    ensures ClientStep(d, now, c).0.run == d.run
  {
    hide StateOf, StoredOutcome, StaleError, Retain, PairAgrees, HistoryOf, EvidenceRead;
  }

  /** The stale-evidence guard compares aggregates field by field only at equal record counts, and no execution brings it a
      commit whose count is the stored one: what sameAggregate leaves out never matters. */
  lemma EqualCountsNeverCompared(o: Origin, states: seq<System>, actions: seq<Action>, i: nat, id: nat, q: Request, commit: Commit)
    requires Execution(o, states, actions) && i < |states| && id in states[i].clients && states[i].clients[id] == Prepared(q, commit)
    requires StateOf(states[i].d).Ok? && StateOf(states[i].d).value.next == commit.previousNext
    ensures var d := states[i].d;
            && StoredOutcome(d) == Ok(d.evidence)
            && (d.evidence.Some? ==> commit.aggregate.recordCount == d.evidence.value.aggregate.recordCount + 1)
  {
    hide *;
    InvariantAt(o, states, actions, i);
    InvariantSays(o, states[i], id);
    CommitIsOnePast(o, states[i], q, commit);
  }
}
