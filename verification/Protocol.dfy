/** Record ingest as a transition system (platform/controlplane.go over platform/postgres.go): any number of clients,
    each reading the run, the cursor and the evidence in separate statements before it commits, interleaved with
    life-cycle writes. `log` is the history of accepted requests, and a client's marks say how many had been accepted when
    each of its statements ran; both are history that no step reads. */
module Protocol {
  import opened Bounded
  import opened Ordering
  import opened BehaviorOperational
  import opened Aggregate
  import opened Collector
  import opened Evidence
  import opened Runs
  import opened Counting
  import opened Retention
  import opened Ingest

  datatype Request = Request(profile: string, sequence: U64, digest: string, facts: Facts, record: Record)

  datatype Reply =
    | Success(replayed: bool, next: U64, recordCount: U64, behaviorComplete: bool)
    | Refused(error: IngestError)

  /** How many requests had been accepted when each statement of one read ran. */
  datatype Marks = Marks(row: nat, hasAggregate: nat, hasSnapshot: nat, aggregate: nat, header: nat, entries: nat)

  const UNMARKED := Marks(0, 0, 0, 0, 0, 0)

  /** The mark of the statement that ReadNext runs next. */
  function Marked(at: Marks, seen: Reads, now: nat): Marks {
    if seen.hasAggregate.None? then at.(hasAggregate := now)
    else if seen.hasSnapshot.None? then at.(hasSnapshot := now)
    else if seen.aggregate.None? then at.(aggregate := now)
    else if seen.header.None? then at.(header := now)
    else at.(entries := now)
  }

  /** Where one call of IngestDecisionRecord stands, with everything it has read so far. */
  datatype Client =
    | Submitted(q: Request)
    | RunSeen(q: Request, run: EvaluationRun)
    | ReadingCursor(q: Request, run: EvaluationRun, row: Option<Cursor>, seen: Reads, at: Marks)
    | ReadingEvidence(q: Request, run: EvaluationRun, next: U64, seen: Reads, at: Marks)
    | Prepared(q: Request, commit: Commit)
    | Answered(q: Request, reply: Reply)

  // ---- One client ---------------------------------------------------------------------------------------------

  function CheckRun(q: Request, run: EvaluationRun): Client {
    if run.status != RunRunning then Answered(q, Refused(ErrEvaluationState))
    else if q.profile != run.profile then Answered(q, Refused(ErrProfileMismatch))
    else RunSeen(q, run)
  }

  /** The retry contract: the expected sequence is applied, an identical retry of the one before replays, everything
      else is refused. */
  function Admit(q: Request, run: EvaluationRun, state: Result<IngestState, IngestError>): Client {
    match state
    case Err(e) => Answered(q, Refused(e))
    case Ok(st) =>
      if q.sequence == st.next then
        if !ValidFacts(q.facts) then Answered(q, Refused(ErrInvalidRecord)) else ReadingEvidence(q, run, st.next, NOTHING_READ, UNMARKED)
      else if q.sequence as int + 1 == st.next && st.digest != "" && st.digest == q.digest then
        Answered(q, Success(true, st.next, st.recordCount, st.behaviorComplete))
      else Answered(q, Refused(ErrSequence))
  }

  /** currentEvidence: what the record is folded into. */
  function Current(evidence: Option<StoredEvidence>, environment: string): Result<Reduced, IngestError> {
    match evidence
    case None => Ok(Empty(environment))
    case Some(e) =>
      match Restored(e.snapshot)
      case Err(err) => Err(err)
      case Ok(c) => Ok(Reduced(e.aggregate, c))
  }

  /** ObservationFromRecord, with whether the fingerprint was new before the record was folded in. */
  function ObservationFor(q: Request, before: CollectorState): Observation {
    Observation(q.sequence, q.record.fingerprintId, q.record.traceId, q.record.spanId, q.record.parentSpanId,
                q.record.fingerprintId !in before.entries)
  }

  predicate Observable(q: Request) {
    q.sequence != 0 && q.record.eventId != "" && q.record.timestamp != 0 && !ReadDuration(q.record.durationNanos).Malformed?
  }

  ghost function CommitFor(q: Request, next: U64, x: Reduced, y: Reduced): Commit {
    Commit(next, q.sequence, q.digest, y.aggregate, SnapshotOf(y.collector), ObservationFor(q, x.collector))
  }

  /** applyRecord, from the evidence it read to the commit it attempts. */
  ghost function Prepare(q: Request, next: U64, current: Result<Reduced, IngestError>): Client {
    match current
    case Err(e) => Answered(q, Refused(e))
    case Ok(x) =>
      match Reduce(x, q.record, q.facts)
      case Err(e) => Answered(q, Refused(e))
      case Ok(y) => if !Observable(q) then Answered(q, Refused(ErrInvalidObservation)) else Prepared(q, CommitFor(q, next, x, y))
  }

  ghost function Gathered(q: Request, next: U64, outcome: Result<Option<StoredEvidence>, IngestError>, environment: string): Client {
    match outcome
    case Err(e) => Answered(q, Refused(e))
    case Ok(evidence) => Prepare(q, next, Current(evidence, environment))
  }

  function ReplyTo(r: Result<CommitResult, IngestError>): Reply {
    match r
    case Err(e) => Refused(e)
    case Ok(c) => Success(c.alreadyCommitted, c.next, c.recordCount, c.behaviorComplete)
  }

  /** One statement, one local decision or one commit transaction, when `now` requests have been accepted. */
  ghost function ClientStep(d: Durable, now: nat, c: Client): (Durable, Client) {
    match c
    case Submitted(q) => (d, CheckRun(q, d.run))
    case RunSeen(q, run) => (d, ReadingCursor(q, run, d.cursor, NOTHING_READ, UNMARKED.(row := now)))
    case ReadingCursor(q, run, row, seen, at) =>
      (d, if Finished(seen) then Admit(q, run, StateFrom(row, EvidenceRead(seen, run.environment)))
          else ReadingCursor(q, run, row, ReadNext(seen, d), Marked(at, seen, now)))
    case ReadingEvidence(q, run, next, seen, at) =>
      (d, if Finished(seen) then Gathered(q, next, EvidenceRead(seen, run.environment), run.environment)
          else ReadingEvidence(q, run, next, ReadNext(seen, d), Marked(at, seen, now)))
    case Prepared(q, commit) => var (after, r) := CommitSpec(d, commit); (after, Answered(q, ReplyTo(r)))
    case Answered(_, _) => (d, c)
  }

  /** The step writes a record, as opposed to being refused or finding the record already committed. */
  ghost predicate Accepts(d: Durable, c: Client) {
    c.Prepared? && CommitSpec(d, c.commit).1.Ok? && !CommitSpec(d, c.commit).1.value.alreadyCommitted
  }

  // ---- The system ---------------------------------------------------------------------------------------------

  datatype System = System(d: Durable, clients: map<nat, Client>, log: seq<Request>)

  datatype Action = Arrive(id: nat, q: Request) | Step(id: nat) | Lifecycle(previous: EvaluationRun, next: EvaluationRun)

  ghost predicate Next(s: System, a: Action, t: System) {
    match a
    case Arrive(id, q) => id !in s.clients && t == s.(clients := s.clients[id := Submitted(q)])
    case Step(id) =>
      && id in s.clients
      && var (after, c) := ClientStep(s.d, |s.log|, s.clients[id]);
         t == System(after, s.clients[id := c], if Accepts(s.d, s.clients[id]) then s.log + [s.clients[id].q] else s.log)
    case Lifecycle(previous, next) => t == s.(d := UpdateSpec(s.d, previous, next).0)
  }

  /** What a run may start from: nothing, or evidence of n records stored before cursors were, or with its cursor row but
      from before observations were retained. */
  datatype Origin = Origin(start: Reduced, stored: bool, cursorDigest: Option<string>)

  ghost predicate ValidOrigin(o: Origin) {
    && (if o.stored then ValidReduced(o.start) else o.start == Empty(o.start.aggregate.environment) && o.cursorDigest.None?)
    && (o.cursorDigest.Some? ==> ValidDigest(o.cursorDigest.value))
  }

  /** Whether evidence is stored once n requests have been accepted. */
  predicate Holds(o: Origin, n: nat) {
    o.stored || n > 0
  }

  /** The cursor row once n requests have been accepted: one past the last of them with its digest or, before any, what
      the run started with. */
  ghost predicate RowAfter(o: Origin, log: seq<Request>, n: nat, row: Option<Cursor>)
    requires n <= |log|
  {
    if n == 0 && o.cursorDigest.None? then row == None
    else
      && row.Some? && row.value.next == o.start.aggregate.recordCount + 1 + n
      && row.value.digest == if n == 0 then o.cursorDigest.value else log[n - 1].digest
  }

  ghost predicate CursorIsLog(o: Origin, s: System) {
    RowAfter(o, s.log, |s.log|, s.d.cursor)
  }

  ghost predicate Init(o: Origin, s: System) {
    && ValidOrigin(o) && s.clients == map[] && s.log == []
    && s.d.run.environment == o.start.aggregate.environment
    && s.d.evidence == (if o.stored then Some(EvidenceOf(o.start)) else None)
    && CursorIsLog(o, s)
    && s.d.retained == NOTHING_RETAINED
  }

  /** One continuous reduction of the accepted requests, in order. */
  function FoldLog(start: Reduced, log: seq<Request>): Result<Reduced, IngestError> {
    if log == [] then Ok(start)
    else
      match FoldLog(start, log[..|log| - 1])
      case Err(e) => Err(e)
      case Ok(x) => Reduce(x, log[|log| - 1].record, log[|log| - 1].facts)
  }

  /** The reduction of the first n of them. */
  function After(o: Origin, log: seq<Request>, n: nat): Reduced
    requires n <= |log|
  {
    if FoldLog(o.start, log[..n]).Ok? then FoldLog(o.start, log[..n]).value else o.start
  }

  /** The observation each accepted request leaves. */
  function Observations(start: Reduced, log: seq<Request>): (r: seq<Observation>)
    ensures |r| == |log|
  {
    if log == [] then []
    else
      var init := log[..|log| - 1];
      var before := if FoldLog(start, init).Ok? then FoldLog(start, init).value else start;
      Observations(start, init) + [ObservationFor(log[|log| - 1], before.collector)]
  }

  /** The sequence the next accepted request must carry. */
  function CursorOf(o: Origin, log: seq<Request>): nat {
    o.start.aggregate.recordCount + 1 + |log|
  }

  /** The digest of the request accepted at a sequence, where one is known. */
  function DigestAt(o: Origin, log: seq<Request>, sequence: nat): Option<string> {
    var base := o.start.aggregate.recordCount;
    if base < sequence <= base + |log| then Some(log[sequence - base - 1].digest)
    else if sequence == base then o.cursorDigest
    else None
  }

  /** The run's behavioral evidence described every record up to and including a sequence. */
  ghost predicate CompleteAt(o: Origin, log: seq<Request>, sequence: nat) {
    var base := o.start.aggregate.recordCount;
    && base <= sequence <= base + |log| && FoldLog(o.start, log[..sequence - base]).Ok?
    && FoldLog(o.start, log[..sequence - base]).value.collector.complete
  }

  /** Stored evidence is dated: a run that began with records was, and a run that began with none has accepted none or had
      a first record from after the zero time. */
  predicate Timely(o: Origin, log: seq<Request>) {
    if o.start.aggregate.recordCount > 0 then o.start.aggregate.lastObservedAt != 0
    else log == [] || log[0].record.timestamp > 0
  }

  // ---- The invariant ------------------------------------------------------------------------------------------

  ghost predicate LogSequenced(o: Origin, log: seq<Request>) {
    forall i | 0 <= i < |log| :: log[i].sequence == o.start.aggregate.recordCount + 1 + i && ValidDigest(log[i].digest)
  }

  /** Every request was folded into evidence that read back. */
  ghost predicate FedByTimely(o: Origin, log: seq<Request>) {
    log != [] ==> Timely(o, log[..|log| - 1])
  }

  ghost predicate EvidenceIsFold(o: Origin, s: System) {
    && FoldLog(o.start, s.log).Ok? && FedByTimely(o, s.log)
    && s.d.evidence == (if Holds(o, |s.log|) then Some(EvidenceOf(FoldLog(o.start, s.log).value)) else None)
  }

  ghost predicate StoreInvariant(o: Origin, s: System) {
    && ValidOrigin(o)
    && s.d.run.environment == o.start.aggregate.environment
    && LogSequenced(o, s.log) && EvidenceIsFold(o, s) && CursorIsLog(o, s)
    && IsBlock(s.d.retained, o.start.aggregate.recordCount + 1, Observations(o.start, s.log))
  }

  /** What each statement returned is what was stored when it ran, no earlier than when `first` requests had been accepted
      and no earlier than the statement before it. */
  ghost predicate ReadAt(o: Origin, log: seq<Request>, seen: Reads, at: Marks, first: nat) {
    && (seen.hasAggregate.Some? ==> first <= at.hasAggregate <= |log| && seen.hasAggregate.value == Holds(o, at.hasAggregate))
    && (seen.hasSnapshot.Some? ==>
          seen.hasAggregate.Some? && at.hasAggregate <= at.hasSnapshot <= |log| && seen.hasSnapshot.value == Holds(o, at.hasSnapshot))
    && (seen.aggregate.Some? ==>
          && seen.hasSnapshot.Some? && seen.hasSnapshot.value && seen.hasAggregate.value
          && at.hasSnapshot <= at.aggregate <= |log| && seen.aggregate.value == After(o, log, at.aggregate).aggregate)
    && (seen.header.Some? ==>
          && seen.aggregate.Some? && at.aggregate <= at.header <= |log|
          && seen.header.value == HeaderOf(SnapshotOf(After(o, log, at.header).collector)))
    && (seen.entries.Some? ==>
          && seen.header.Some? && at.header <= at.entries <= |log|
          && seen.entries.value == SnapshotOf(After(o, log, at.entries).collector).entries)
  }

  /** The commit is the one the stored evidence calls for. */
  ghost predicate CommitIsCurrent(o: Origin, log: seq<Request>, q: Request, commit: Commit) {
    && FoldLog(o.start, log).Ok?
    && Reduce(FoldLog(o.start, log).value, q.record, q.facts).Ok?
    && commit == CommitFor(q, q.sequence, FoldLog(o.start, log).value, Reduce(FoldLog(o.start, log).value, q.record, q.facts).value)
  }

  /** The reply says of the behavioral evidence what was true at the request's sequence. */
  ghost predicate SaysRight(o: Origin, log: seq<Request>, q: Request, reply: Reply) {
    reply.Success? && (reply.behaviorComplete <==> CompleteAt(o, log, q.sequence))
  }

  /** The reply claims the request's sequence and the log holds its digest there. What it says of the behavioral evidence
      is right if the record was applied; otherwise evidence it calls complete was complete. */
  ghost predicate SaysAccepted(o: Origin, log: seq<Request>, q: Request, reply: Reply) {
    && reply.Success? && reply.next == q.sequence + 1 && reply.recordCount == q.sequence
    && DigestAt(o, log, q.sequence) == Some(q.digest)
    && (reply.behaviorComplete ==> CompleteAt(o, log, q.sequence))
    && (!reply.replayed ==> SaysRight(o, log, q, reply))
  }

  /** Nothing a client holds is trusted, except that each of its statements returned what was stored when it ran. */
  ghost predicate ClientInvariant(o: Origin, s: System, c: Client) {
    match c
    case Submitted(_) => true
    case RunSeen(_, run) => run.environment == o.start.aggregate.environment
    case ReadingCursor(_, run, row, seen, at) =>
      && run.environment == o.start.aggregate.environment && at.row <= |s.log| && RowAfter(o, s.log, at.row, row)
      && ReadAt(o, s.log, seen, at, at.row)
    case ReadingEvidence(q, run, next, seen, at) =>
      && run.environment == o.start.aggregate.environment && q.sequence == next
      && o.start.aggregate.recordCount < next <= CursorOf(o, s.log)
      && ReadAt(o, s.log, seen, at, next - o.start.aggregate.recordCount - 1)
    case Prepared(q, commit) =>
      && commit.previousNext == commit.sequence == q.sequence && commit.digest == q.digest
      && commit.observation.sequence == q.sequence && PairAgrees(commit.aggregate, commit.snapshot)
      && o.start.aggregate.recordCount < commit.sequence <= CursorOf(o, s.log)
      && (commit.sequence == CursorOf(o, s.log) ==> CommitIsCurrent(o, s.log, q, commit))
    case Answered(q, reply) =>
      reply.Success? ==> SaysAccepted(o, s.log, q, reply)
  }

  ghost predicate ClientsInvariant(o: Origin, s: System) {
    forall id {:trigger s.clients[id]} | id in s.clients :: ClientInvariant(o, s, s.clients[id])
  }

  ghost predicate Invariant(o: Origin, s: System) {
    StoreInvariant(o, s) && ClientsInvariant(o, s)
  }
}
