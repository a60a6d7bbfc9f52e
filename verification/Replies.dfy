/** Every reply of the ingest protocol as a function of the stage a client has come to and the moments its statements ran,
    and so exactly when a client is answered with success whose record another client has already had accepted. */
module Replies {
  import opened Bounded
  import opened Ordering
  import opened BehaviorOperational
  import opened Aggregate
  import opened Collector
  import opened Evidence
  import opened Runs
  import opened Counting
  import opened Retention
  import opened Ingest
  import opened Protocol
  import opened ProtocolSafety
  import opened ProtocolRuns
  import opened TornReads

  function RefusedWith(e: Option<IngestError>): Option<Reply> {
    if e.Some? then Some(Refused(e.value)) else None
  }

  /** What a client's next step answers it, if anything. */
  ghost function NextReply(o: Origin, s: System, c: Client): Option<Reply> {
    match c
    case Submitted(q) =>
      if s.d.run.status != RunRunning then Some(Refused(ErrEvaluationState))
      else if q.profile != s.d.run.profile then Some(Refused(ErrProfileMismatch))
      else None
    case RunSeen(_, _) => None
    case ReadingCursor(q, _, row, seen, at) => if Finished(seen) then CursorAnswer(o, s.log, q, row, at) else None
    case ReadingEvidence(q, _, _, seen, at) => if Finished(seen) then RefusedWith(FoldRefusal(o, s.log, q, at)) else None
    case Prepared(q, _) => if q.sequence <= CursorOf(o, s.log) then Some(CommitAnswer(o, s, q)) else None
    case Answered(_, reply) => Some(reply)
  }

  ghost predicate RepliesAs(c: Client, reply: Option<Reply>) {
    if reply.Some? then c.Answered? && c.reply == reply.value else !c.Answered?
  }

  lemma CursorReplies(o: Origin, log: seq<Request>, q: Request, run: EvaluationRun, row: Option<Cursor>, at: Marks, c: Client)
    requires DecidesAsMarked(o, log, q, run, row, at, c)
    ensures RepliesAs(c, CursorAnswer(o, log, q, row, at))
  {
    hide CursorAnswer;
  }

  lemma FoldReplies(o: Origin, log: seq<Request>, q: Request, at: Marks, c: Client)
    requires PreparesAsMarked(o, log, q, at, c)
    ensures RepliesAs(c, RefusedWith(FoldRefusal(o, log, q, at)))
  {
    hide FoldRefusal, FoldedInto, Reduce, CommitFor;
  }

  lemma ReaderSteps(d: Durable, now: nat, c: Client)
    ensures c.ReadingCursor? ==>
              (if Finished(c.seen) then ClientStep(d, now, c).1 == Admit(c.q, c.run, StateFrom(c.row, EvidenceRead(c.seen, c.run.environment)))
               else ClientStep(d, now, c).1.ReadingCursor?)
    ensures c.ReadingEvidence? ==>
              (if Finished(c.seen)
               then ClientStep(d, now, c).1 == Gathered(c.q, c.next, EvidenceRead(c.seen, c.run.environment), c.run.environment)
               else ClientStep(d, now, c).1.ReadingEvidence?)
    ensures c.Prepared? ==> ClientStep(d, now, c).1 == Answered(c.q, ReplyTo(CommitSpec(d, c.commit).1))
  {
    hide Admit, Gathered, StateFrom, EvidenceRead, Finished, CommitSpec, ReadNext, Marked;
  }

  lemma EarlySteps(o: Origin, s: System, c: Client)
    requires c.Submitted? || c.RunSeen? || c.Answered?
    ensures RepliesAs(ClientStep(s.d, |s.log|, c).1, NextReply(o, s, c))
  {
  }

  lemma NextReplySays(o: Origin, s: System, c: Client)
    ensures c.ReadingCursor? ==> NextReply(o, s, c) == if Finished(c.seen) then CursorAnswer(o, s.log, c.q, c.row, c.at) else None
    ensures c.ReadingEvidence? ==> NextReply(o, s, c) == if Finished(c.seen) then RefusedWith(FoldRefusal(o, s.log, c.q, c.at)) else None
    ensures c.Prepared? && c.q.sequence <= CursorOf(o, s.log) ==> NextReply(o, s, c) == Some(CommitAnswer(o, s, c.q))
  {
    hide CursorAnswer, FoldRefusal, CommitAnswer, Finished, RefusedWith;
  }

  lemma NoReplyYet(c: Client)
    requires c.ReadingCursor? || c.ReadingEvidence?
    ensures RepliesAs(c, None)
  {
  }

  lemma GivenReply(q: Request, reply: Reply)
    ensures RepliesAs(Answered(q, reply), Some(reply))
  {
  }

  /** Every step of every client answers it so, or not yet. */
  lemma EveryReply(o: Origin, s: System, c: Client)
    requires StoreInvariant(o, s) && ClientInvariant(o, s, c)
    ensures RepliesAs(ClientStep(s.d, |s.log|, c).1, NextReply(o, s, c))
  {
    hide *;
    ReaderSteps(s.d, |s.log|, c);
    NextReplySays(o, s, c);
    match c
    case Submitted(_) => EarlySteps(o, s, c);
    case RunSeen(_, _) => EarlySteps(o, s, c);
    case Answered(_, _) => EarlySteps(o, s, c);
    case ReadingCursor(q, run, row, seen, at) =>
      if Finished(seen) {
        CursorReaderAnswer(o, s, q, run, row, seen, at);
        CursorReplies(o, s.log, q, run, row, at, Admit(q, run, StateFrom(row, EvidenceRead(seen, run.environment))));
      } else {
        NoReplyYet(ClientStep(s.d, |s.log|, c).1);
      }
    case ReadingEvidence(q, run, next, seen, at) =>
      if Finished(seen) {
        EvidenceReaderAnswer(o, s, q, run, next, seen, at);
        FoldReplies(o, s.log, q, at, Gathered(q, next, EvidenceRead(seen, run.environment), run.environment));
      } else {
        NoReplyYet(ClientStep(s.d, |s.log|, c).1);
      }
    case Prepared(q, commit) =>
      CommitAnswered(o, s, q, commit);
      GivenReply(q, CommitAnswer(o, s, q));
  }

  /** In every execution the reply a step gives a client is the one its stage and its moments call for. */
  lemma EveryReplyOfRuns(o: Origin, states: seq<System>, actions: seq<Action>, i: nat, id: nat, q: Request, reply: Reply)
    requires Execution(o, states, actions) && i < |states| && AnswersNow(states[i], id, q, reply)
    ensures id in states[i].clients && NextReply(o, states[i], states[i].clients[id]) == Some(reply)
  {
    hide *;
    AnswerFacts(states[i], id, q, reply);
    InvariantAt(o, states, actions, i);
    InvariantSays(o, states[i], id);
    EveryReply(o, states[i], states[i].clients[id]);
    RepliesSay(q, reply, NextReply(o, states[i], states[i].clients[id]));
  }

  lemma RepliesSay(q: Request, reply: Reply, expected: Option<Reply>)
    requires RepliesAs(Answered(q, reply), expected)
    ensures expected == Some(reply)
  {
  }

  // ---- Identical submissions ----------------------------------------------------------------------------------

  /** The stage and the moments at which a client is answered with success although its record is already in the log. One
      still to be admitted must have read a cursor row, a whole read must stand behind it, and its record must be the one
      it stands behind; one that has prepared its commit must find the cursor one past its sequence and the store
      readable. One that has been admitted and reads the evidence to fold into is never answered with success there. */
  ghost predicate ReplaysHere(o: Origin, log: seq<Request>, c: Client) {
    match c
    case ReadingCursor(q, _, row, _, at) =>
      !CursorReadTorn(o, log, row, at) && row.Some? && q.sequence == o.start.aggregate.recordCount + at.row
    case Prepared(q, _) => Timely(o, log) && q.sequence + 1 == CursorOf(o, log)
    case _ => false
  }

  lemma CursorReplaysHere(o: Origin, log: seq<Request>, q: Request, row: Option<Cursor>, at: Marks)
    requires row.Some? ==> && row.value.next == o.start.aggregate.recordCount + 1 + at.row && Holds(o, at.hasAggregate)
                           && DigestAt(o, log, o.start.aggregate.recordCount + at.row) == Some(row.value.digest)
    requires DigestAt(o, log, q.sequence) == Some(q.digest)
    ensures CursorAnswer(o, log, q, row, at).Some? ==>
              var reply := CursorAnswer(o, log, q, row, at).value;
              && (reply.Success? <==> !CursorReadTorn(o, log, row, at) && row.Some? && q.sequence == o.start.aggregate.recordCount + at.row)
              && (reply.Success? ==> reply.replayed)
  {
    hide ReadsAsOne, CompleteAt, DigestAt, ValidFacts;
  }

  lemma CommitReplaysHere(o: Origin, s: System, q: Request)
    requires q.sequence <= CursorOf(o, s.log) && DigestAt(o, s.log, q.sequence) == Some(q.digest)
    requires ValidDigest(q.digest) && CursorOf(o, s.log) <= MAX_UINT64 && q.sequence < CursorOf(o, s.log)
    ensures CommitAnswer(o, s, q).Success? <==> Timely(o, s.log) && q.sequence + 1 == CursorOf(o, s.log)
    ensures CommitAnswer(o, s, q).Success? ==> CommitAnswer(o, s, q).replayed
  {
    hide Timely, CompleteAt, DigestAt, ValidDigest, CursorOf;
  }

  lemma NeverReplaysHere(o: Origin, s: System, c: Client)
    ensures c.Submitted? || c.RunSeen? || c.ReadingEvidence? ==> !ReplaysHere(o, s.log, c)
    ensures (c.Submitted? || c.RunSeen? || c.ReadingEvidence?) && NextReply(o, s, c).Some? ==> NextReply(o, s, c).value.Refused?
    ensures c.ReadingCursor? ==>
              (ReplaysHere(o, s.log, c) <==>
               !CursorReadTorn(o, s.log, c.row, c.at) && c.row.Some? && c.q.sequence == o.start.aggregate.recordCount + c.at.row)
    ensures c.ReadingCursor? && NextReply(o, s, c).Some? ==> NextReply(o, s, c) == CursorAnswer(o, s.log, c.q, c.row, c.at) && Finished(c.seen)
    ensures c.Prepared? ==> (ReplaysHere(o, s.log, c) <==> Timely(o, s.log) && c.q.sequence + 1 == CursorOf(o, s.log))
  {
    hide CursorAnswer, FoldRefusal, CommitAnswer, Finished, CursorReadTorn, Timely, CursorOf;
  }

  lemma TwinReplies(o: Origin, s: System, c: Client, reply: Reply)
    requires StoreInvariant(o, s) && ClientInvariant(o, s, c) && !c.Answered? && NextReply(o, s, c) == Some(reply)
    requires DigestAt(o, s.log, c.q.sequence) == Some(c.q.digest)
    ensures reply.Success? <==> ReplaysHere(o, s.log, c)
    ensures reply.Success? ==> reply.replayed
  {
    hide *;
    NeverReplaysHere(o, s, c);
    NextReplySays(o, s, c);
    OriginSays(o, s);
    KnownDigestIsValid(o, s, c.q.sequence);
    match c
    case Submitted(_) =>
    case RunSeen(_, _) =>
    case ReadingEvidence(_, _, _, _, _) =>
    case ReadingCursor(q, run, row, seen, at) =>
      CursorReaderSays(o, s, q, run, row, seen, at);
      RowKnown(o, s.log, at.row, row);
      RowHolds(o, s.log, row, seen, at);
      CursorReplaysHere(o, s.log, q, row, at);
    case Prepared(q, commit) =>
      PreparedSays(o, s, q, commit);
      CommitReplaysHere(o, s, q);
  }

  /** In every execution, a client whose record the log already holds at its sequence is answered with success, always as a
      replay, if and only if it is answered at one of the two stages and moments above. */
  lemma TwinReplaysIff(o: Origin, states: seq<System>, actions: seq<Action>, i: nat, id: nat, q: Request, reply: Reply)
    requires Execution(o, states, actions) && i < |states| && AnswersNow(states[i], id, q, reply)
    requires DigestAt(o, states[i].log, q.sequence) == Some(q.digest)
    ensures id in states[i].clients
    ensures reply.Success? <==> ReplaysHere(o, states[i].log, states[i].clients[id])
    ensures reply.Success? ==> reply.replayed
  {
    hide *;
    AnswerFacts(states[i], id, q, reply);
    InvariantAt(o, states, actions, i);
    InvariantSays(o, states[i], id);
    EveryReplyOfRuns(o, states, actions, i, id, q, reply);
    StepKeepsRequest(states[i].d, |states[i].log|, states[i].clients[id]);
    TwinReplies(o, states[i], states[i].clients[id], reply);
  }

  lemma StepKeepsRequest(d: Durable, now: nat, c: Client)
    ensures ClientStep(d, now, c).1.q == c.q
  {
    hide StateFrom, EvidenceRead, Reduce, Current, ReadNext, Marked, CommitSpec, ValidFacts, Finished, CommitFor, Observable;
  }
}
