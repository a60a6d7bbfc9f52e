/** What a client makes of statements that ran at different moments: exactly when they pass for one moment's evidence, what
    the client is then answered, and when that answer is right. */
module TornReads {
  import opened Bounded
  import opened Ordering
  import opened BehaviorOperational
  import opened Aggregate
  import opened Collector
  import F = Fidelity
  import opened Evidence
  import opened Runs
  import opened Counting
  import opened Retention
  import opened Ingest
  import opened Protocol
  import opened ProtocolSafety
  import opened ProtocolRuns

  // ---- The collector between two moments ----------------------------------------------------------------------

  /** Behavioral evidence did not move between two moments: nothing was accepted, or the collector no longer observed. */
  ghost predicate Unmoved(o: Origin, log: seq<Request>, n: nat, m: nat) {
    n == m || !CompleteAt(o, log, o.start.aggregate.recordCount + n + 1)
  }

  lemma CollectorMoves(o: Origin, log: seq<Request>, n: nat)
    requires FoldLog(o.start, log).Ok? && n < |log|
    ensures var c, d := After(o, log, n).collector, After(o, log, n + 1).collector;
            if d.complete then c.complete && d.observations == c.observations + 1 else d == c.(complete := false)
  {
    hide Reduce;
    FoldPrefix(o.start, log, n + 1);
    FoldPrefix(o.start, log, n);
    assert log[..n + 1][..n] == log[..n];
    ReduceMoves(FoldLog(o.start, log[..n]).value, log[n].record, log[n].facts);
  }

  lemma {:induction false} ObservationsGrow(o: Origin, log: seq<Request>, n: nat, m: nat)
    requires FoldLog(o.start, log).Ok? && n <= m <= |log|
    ensures After(o, log, n).collector.observations <= After(o, log, m).collector.observations
  {
    hide After, FoldLog;
    if n < m {
      ObservationsGrow(o, log, n, m - 1);
      CollectorMoves(o, log, m - 1);
    }
  }

  lemma {:induction false} UnobservedStays(o: Origin, log: seq<Request>, n: nat, m: nat)
    requires FoldLog(o.start, log).Ok? && n <= m <= |log| && !After(o, log, n).collector.complete
    ensures After(o, log, m).collector == After(o, log, n).collector
  {
    hide After, FoldLog;
    if n < m {
      UnobservedStays(o, log, n, m - 1);
      CollectorMoves(o, log, m - 1);
    }
  }

  /** Evidence that did not move is the same but for its completeness; evidence that moved has observed more. */
  lemma UnmovedIff(o: Origin, log: seq<Request>, n: nat, m: nat)
    requires FoldLog(o.start, log).Ok? && n <= m <= |log|
    ensures var c, d := After(o, log, n).collector, After(o, log, m).collector;
            if Unmoved(o, log, n, m) then d == c.(complete := d.complete) && (n < m ==> !d.complete)
            else c.observations < d.observations
  {
    hide After, FoldLog, CompleteAt;
    if n < m {
      CompleteIs(o, log, n + 1);
      CollectorMoves(o, log, n);
      if After(o, log, n + 1).collector.complete {
        ObservationsGrow(o, log, n + 1, m);
      } else {
        UnobservedStays(o, log, n + 1, m);
      }
    }
  }

  // ---- Statements of three moments ----------------------------------------------------------------------------

  /** The aggregate of one moment beside the snapshot row of a second and the entries of a third. */
  ghost predicate PassesAsOne(x: Reduced, y: Reduced, z: Reduced) {
    var h := HeaderOf(SnapshotOf(y.collector));
    Trusted(x.aggregate, Assembled(h, SnapshotOf(z.collector).entries), h.distinct, x.aggregate.environment)
  }

  lemma SnapshotFields(c: CollectorState)
    ensures SnapshotOf(c).environment == c.environment && SnapshotOf(c).observations == c.observations
    ensures SnapshotOf(c).complete == c.complete && SnapshotOf(c).entries == SortedEntries(c.entries)
  {
    hide SortedEntries;
  }

  lemma PassingTotals(y: Reduced, z: Reduced)
    requires ValidReduced(y) && ValidReduced(z)
    requires var h := HeaderOf(SnapshotOf(y.collector)); RestoredSnapshotValid(Assembled(h, SnapshotOf(z.collector).entries), h.distinct)
    ensures y.collector.observations == z.collector.observations
  {
    hide SoundAggregate, Structured, EntriesValid, IdentitiesValid, CountsAgree, SortedEntries, EntryTotal, Indexed, EntryFits;
    StoredSnapshotReadsBack(z.collector);
    SnapshotFields(y.collector);
    SnapshotFields(z.collector);
  }

  /** The three halves agree when neither the snapshot row nor the entries moved on from the aggregate. */
  lemma UnmovedPasses(x: Reduced, y: Reduced, z: Reduced, moved: bool)
    requires ValidReduced(x) && ValidReduced(y) && ValidReduced(z) && x.aggregate.environment == y.aggregate.environment
    requires y.collector.entries == z.collector.entries
    requires if moved then !y.collector.complete && y.collector.observations == x.collector.observations else x == y
    ensures PassesAsOne(x, y, z) <==> Dated(x.aggregate)
  {
    hide ValidCollector, IdentitiesValid, SortedEntries, RestoredSnapshotValid, SoundAggregate, ValidAggregate, Dated;
    ValidIffDated(x.aggregate);
    StoredSnapshotReadsBack(y.collector);
    SnapshotFields(y.collector);
    SnapshotFields(z.collector);
    ReassembledIsItself(SnapshotOf(y.collector));
  }

  lemma PassingAgrees(x: Reduced, y: Reduced, z: Reduced)
    requires PassesAsOne(x, y, z) && ValidReduced(y)
    ensures ValidAggregate(x.aggregate)
    ensures y.collector.complete ==> x.aggregate.recordCount == y.aggregate.recordCount
    ensures y.collector.observations <= x.aggregate.recordCount
    ensures var h := HeaderOf(SnapshotOf(y.collector)); RestoredSnapshotValid(Assembled(h, SnapshotOf(z.collector).entries), h.distinct)
  {
    hide ValidCollector, IdentitiesValid, SortedEntries, RestoredSnapshotValid, SoundAggregate, ValidAggregate;
    SnapshotFields(y.collector);
  }

  /** Statements of three moments pass every check exactly when the aggregate is dated and behavioral evidence moved
      neither between the aggregate and the snapshot row nor between the row and its entries. */
  lemma PassesIff(o: Origin, log: seq<Request>, a: nat, h: nat, e: nat)
    requires ValidOrigin(o) && FoldLog(o.start, log).Ok? && a <= h <= e <= |log|
    ensures PassesAsOne(After(o, log, a), After(o, log, h), After(o, log, e)) <==>
            Dated(After(o, log, a).aggregate) && Unmoved(o, log, a, h) && Unmoved(o, log, h, e)
  {
    hide *;
    var x, y, z := After(o, log, a), After(o, log, h), After(o, log, e);
    AfterCounts(o, log, a);
    AfterCounts(o, log, h);
    AfterCounts(o, log, e);
    UnmovedIff(o, log, a, h);
    UnmovedIff(o, log, h, e);
    if Unmoved(o, log, a, h) && Unmoved(o, log, h, e) {
      UnmovedPasses(x, y, z, a < h);
    } else if PassesAsOne(x, y, z) {
      PassingAgrees(x, y, z);
      PassingTotals(y, z);
      CountsSay(x);
      MovedBeyond(o, log, a, h);
      assert false;
    }
  }

  lemma CountsSay(x: Reduced)
    requires ValidReduced(x)
    ensures x.collector.complete ==> x.collector.observations == x.aggregate.recordCount
    ensures x.collector.observations <= x.aggregate.recordCount
  {
    hide SoundAggregate, ValidCollector, IdentitiesValid;
  }

  /** Where evidence moved, the later has observed more than the earlier aggregate counts. */
  lemma MovedBeyond(o: Origin, log: seq<Request>, a: nat, h: nat)
    requires ValidOrigin(o) && FoldLog(o.start, log).Ok? && a <= h <= |log|
    ensures Unmoved(o, log, a, h) || After(o, log, h).collector.observations > After(o, log, a).aggregate.recordCount
  {
    hide After, FoldLog, ValidOrigin, ValidReduced, CompleteAt;
    if !Unmoved(o, log, a, h) {
      CompleteIs(o, log, a + 1);
      AfterCounts(o, log, a);
      AfterCounts(o, log, a + 1);
      CountsSay(After(o, log, a + 1));
      ObservationsGrow(o, log, a + 1, h);
    }
  }

  // ---- One read -----------------------------------------------------------------------------------------------

  /** The presence of the two rows was read on either side of the first accepted request. */
  predicate TornPresence(o: Origin, at: Marks) {
    !Holds(o, at.hasAggregate) && Holds(o, at.hasSnapshot)
  }

  /** The statements of one read pass for the evidence of one moment. */
  ghost predicate ReadsAsOne(o: Origin, log: seq<Request>, at: Marks) {
    && !TornPresence(o, at)
    && (Holds(o, at.hasAggregate) ==>
          at.aggregate <= |log| && Timely(o, log[..at.aggregate]) && Unmoved(o, log, at.aggregate, at.header)
          && Unmoved(o, log, at.header, at.entries))
  }

  lemma PrefixFed(o: Origin, log: seq<Request>, n: nat)
    requires FedByTimely(o, log) && n <= |log|
    ensures FedByTimely(o, log[..n])
  {
    hide Timely;
    if n == |log| {
      assert log[..n] == log;
    } else if n > 0 {
      TimelyPrefix(o, log[..|log| - 1], n - 1);
      assert log[..|log| - 1][..n - 1] == log[..n][..n - 1];
    }
  }

  lemma AfterDated(o: Origin, log: seq<Request>, n: nat)
    requires ValidOrigin(o) && FoldLog(o.start, log).Ok? && FedByTimely(o, log) && n <= |log|
    ensures Dated(After(o, log, n).aggregate) <==> Timely(o, log[..n])
  {
    hide FoldLog, ValidOrigin, ValidReduced, Dated, Timely, FedByTimely;
    AfterCounts(o, log, n);
    PrefixFed(o, log, n);
    FoldDated(o, log[..n]);
  }

  /** What a read of the evidence yields. */
  ghost predicate YieldsAsMarked(o: Origin, log: seq<Request>, at: Marks, outcome: Result<Option<StoredEvidence>, IngestError>) {
    if !ReadsAsOne(o, log, at) then outcome == Err(ErrStoreCorrupt)
    else if !Holds(o, at.hasAggregate) then outcome == Ok(None)
    else at.aggregate <= |log| && at.header <= |log|
         && outcome == Ok(Some(StoredEvidence(After(o, log, at.aggregate).aggregate, SnapshotOf(After(o, log, at.header).collector))))
  }

  lemma AbsentRead(o: Origin, log: seq<Request>, seen: Reads, at: Marks, first: nat, environment: string)
    requires ReadAt(o, log, seen, at, first) && Finished(seen)
    ensures seen.hasAggregate.value == Holds(o, at.hasAggregate) && seen.hasSnapshot.value == Holds(o, at.hasSnapshot)
    ensures TornPresence(o, at) ==> EvidenceRead(seen, environment) == Err(ErrStoreCorrupt)
    ensures !Holds(o, at.hasAggregate) && !TornPresence(o, at) ==> EvidenceRead(seen, environment) == Ok(None)
    ensures Holds(o, at.hasAggregate) ==> Holds(o, at.hasSnapshot)
  {
    hide Trusted, After;
  }

  lemma PresentRead(o: Origin, log: seq<Request>, seen: Reads, at: Marks, first: nat, environment: string)
    requires ReadAt(o, log, seen, at, first) && Finished(seen) && Holds(o, at.hasAggregate) && Holds(o, at.hasSnapshot)
    ensures at.aggregate <= at.header <= at.entries <= |log|
    ensures After(o, log, at.aggregate).aggregate.environment == environment ==>
              EvidenceRead(seen, environment) ==
              if PassesAsOne(After(o, log, at.aggregate), After(o, log, at.header), After(o, log, at.entries))
              then Ok(Some(StoredEvidence(After(o, log, at.aggregate).aggregate,
                                          Assembled(HeaderOf(SnapshotOf(After(o, log, at.header).collector)),
                                                    SnapshotOf(After(o, log, at.entries).collector).entries))))
              else Err(ErrStoreCorrupt)
  {
    hide Trusted, After, SnapshotOf;
  }

  lemma UnmovedAssembles(c: CollectorState, d: CollectorState)
    requires c.entries == d.entries
    ensures Assembled(HeaderOf(SnapshotOf(c)), SnapshotOf(d).entries) == SnapshotOf(c)
  {
    hide SortedEntries;
  }

  lemma EvidenceReadIff(o: Origin, log: seq<Request>, seen: Reads, at: Marks, first: nat)
    requires ValidOrigin(o) && FoldLog(o.start, log).Ok? && FedByTimely(o, log) && ReadAt(o, log, seen, at, first) && Finished(seen)
    ensures YieldsAsMarked(o, log, at, EvidenceRead(seen, o.start.aggregate.environment))
  {
    hide FoldLog, ValidOrigin, FedByTimely, ReadAt, Finished, EvidenceRead, PassesAsOne, Dated, Timely, Unmoved, After, SnapshotOf, ValidReduced,
         Assembled, HeaderOf;
    AbsentRead(o, log, seen, at, first, o.start.aggregate.environment);
    if Holds(o, at.hasAggregate) {
      PresentRead(o, log, seen, at, first, o.start.aggregate.environment);
      AfterCounts(o, log, at.aggregate);
      PassesIff(o, log, at.aggregate, at.header, at.entries);
      AfterDated(o, log, at.aggregate);
      UnmovedIff(o, log, at.header, at.entries);
      if Unmoved(o, log, at.header, at.entries) {
        UnmovedAssembles(After(o, log, at.header).collector, After(o, log, at.entries).collector);
      }
    }
  }

  /** The last statement of a read. */
  function LastMark(o: Origin, at: Marks): nat {
    if Holds(o, at.hasAggregate) then at.entries else at.hasSnapshot
  }

  /** Statements of one moment are torn only where what is stored does not read back. */
  lemma SameMomentReadsAsOne(o: Origin, log: seq<Request>, seen: Reads, at: Marks, first: nat)
    requires ReadAt(o, log, seen, at, first) && Finished(seen) && LastMark(o, at) <= at.hasAggregate
    ensures ReadsAsOne(o, log, at) || !Timely(o, log[..at.hasAggregate])
  {
    hide After, Timely, SnapshotOf;
  }

  // ---- What a client that read the cursor is answered ---------------------------------------------------------

  predicate IsReplay(c: Client) {
    c.Answered? && c.reply.Success? && c.reply.replayed
  }

  predicate FoundCorrupt(c: Client) {
    c.Answered? && c.reply == Refused(ErrStoreCorrupt)
  }

  /** The evidence read does not pass for one moment's, or the cursor row is of an earlier moment than the aggregate. */
  ghost predicate CursorReadTorn(o: Origin, log: seq<Request>, row: Option<Cursor>, at: Marks) {
    !ReadsAsOne(o, log, at) || (row.Some? && at.row != at.aggregate)
  }

  lemma StateOfTorn(o: Origin, log: seq<Request>, row: Option<Cursor>, at: Marks, outcome: Result<Option<StoredEvidence>, IngestError>)
    requires YieldsAsMarked(o, log, at, outcome) && !ReadsAsOne(o, log, at)
    ensures StateFrom(row, outcome) == Err(ErrStoreCorrupt)
  {
    hide ReadsAsOne, After, SnapshotOf, ValidDigest;
  }

  lemma StateOfAbsent(o: Origin, log: seq<Request>, row: Option<Cursor>, at: Marks, outcome: Result<Option<StoredEvidence>, IngestError>)
    requires YieldsAsMarked(o, log, at, outcome) && ReadsAsOne(o, log, at) && !Holds(o, at.hasAggregate) && row.None?
    ensures StateFrom(row, outcome) == Ok(IngestState(1, "", 0, 0, 0, true))
  {
    hide ReadsAsOne, After, SnapshotOf, ValidDigest;
  }

  /** What ingestState makes of evidence that passes: corrupt unless the row stands where the aggregate does, and without a
      digest where there was no row. */
  lemma StateOfPresent(o: Origin, log: seq<Request>, row: Option<Cursor>, at: Marks, outcome: Result<Option<StoredEvidence>, IngestError>)
    requires ValidOrigin(o) && FoldLog(o.start, log).Ok? && YieldsAsMarked(o, log, at, outcome) && ReadsAsOne(o, log, at)
    requires Holds(o, at.hasAggregate)
    requires row.Some? ==> row.value.next == o.start.aggregate.recordCount + 1 + at.row && ValidDigest(row.value.digest)
    ensures var state, count := StateFrom(row, outcome), o.start.aggregate.recordCount + at.aggregate;
            if row.Some? && at.row != at.aggregate then state == Err(ErrStoreCorrupt)
            else if row.None? && count == MAX_UINT64 then state == Err(ErrSequence)
            else && state.Ok? && state.value.next == count + 1 && state.value.recordCount == count
                 && state.value.digest == (if row.Some? then row.value.digest else "")
                 && (state.value.behaviorComplete <==> CompleteAt(o, log, o.start.aggregate.recordCount + at.header))
  {
    hide ReadsAsOne, After, SortedEntries, FoldLog, ValidOrigin, ValidReduced, ValidDigest, CompleteAt;
    AfterCounts(o, log, at.aggregate);
    CompleteIs(o, log, at.header);
  }

  /** What a client that has read everything it needs to admit its request is answered, in terms of when its statements ran;
      nothing where it goes on to read the evidence to fold into. */
  ghost function CursorAnswer(o: Origin, log: seq<Request>, q: Request, row: Option<Cursor>, at: Marks): Option<Reply> {
    var base := o.start.aggregate.recordCount;
    var count := base + if Holds(o, at.hasAggregate) then at.aggregate else 0;
    if CursorReadTorn(o, log, row, at) then Some(Refused(ErrStoreCorrupt))
    else if count >= MAX_UINT64 then Some(Refused(ErrSequence))
    else if q.sequence == count + 1 then if ValidFacts(q.facts) then None else Some(Refused(ErrInvalidRecord))
    else if q.sequence == count && row.Some? && row.value.digest == q.digest then
      Some(Success(true, count + 1, count, CompleteAt(o, log, base + at.header)))
    else Some(Refused(ErrSequence))
  }

  ghost predicate DecidesAsMarked(o: Origin, log: seq<Request>, q: Request, run: EvaluationRun, row: Option<Cursor>, at: Marks, c: Client) {
    match CursorAnswer(o, log, q, row, at)
    case Some(reply) => c == Answered(q, reply)
    case None => c == ReadingEvidence(q, run, q.sequence, NOTHING_READ, UNMARKED)
  }

  lemma AnswerOfPresent(o: Origin, log: seq<Request>, q: Request, run: EvaluationRun, row: Option<Cursor>, at: Marks,
                        outcome: Result<Option<StoredEvidence>, IngestError>)
    requires ValidOrigin(o) && FoldLog(o.start, log).Ok? && YieldsAsMarked(o, log, at, outcome) && ReadsAsOne(o, log, at)
    requires Holds(o, at.hasAggregate)
    requires row.Some? ==> row.value.next == o.start.aggregate.recordCount + 1 + at.row && ValidDigest(row.value.digest)
    ensures DecidesAsMarked(o, log, q, run, row, at, Admit(q, run, StateFrom(row, outcome)))
  {
    hide ReadsAsOne, YieldsAsMarked, FoldLog, ValidOrigin, ValidDigest, CompleteAt, StateFrom, ValidFacts;
    StateOfPresent(o, log, row, at, outcome);
    CountFits(o, log, at, outcome);
    if row.Some? {
      EmptyIsNoDigest(row.value.digest);
    }
  }

  lemma CountFits(o: Origin, log: seq<Request>, at: Marks, outcome: Result<Option<StoredEvidence>, IngestError>)
    requires ValidOrigin(o) && FoldLog(o.start, log).Ok? && YieldsAsMarked(o, log, at, outcome) && ReadsAsOne(o, log, at)
    requires Holds(o, at.hasAggregate)
    ensures o.start.aggregate.recordCount + at.aggregate <= MAX_UINT64
  {
    hide ReadsAsOne, After, SnapshotOf, FoldLog, ValidOrigin;
    AfterCounts(o, log, at.aggregate);
  }

  lemma AnswerOfAbsent(o: Origin, log: seq<Request>, q: Request, run: EvaluationRun, row: Option<Cursor>, at: Marks,
                       outcome: Result<Option<StoredEvidence>, IngestError>)
    requires YieldsAsMarked(o, log, at, outcome)
    requires ReadsAsOne(o, log, at) ==> !Holds(o, at.hasAggregate) && row.None? && o.start.aggregate.recordCount == 0
    ensures DecidesAsMarked(o, log, q, run, row, at, Admit(q, run, StateFrom(row, outcome)))
  {
    hide ReadsAsOne, YieldsAsMarked, CompleteAt, StateFrom, ValidFacts;
    if ReadsAsOne(o, log, at) {
      StateOfAbsent(o, log, row, at, outcome);
    } else {
      StateOfTorn(o, log, row, at, outcome);
    }
  }

  /** What it means to be told of corruption, to replay, and to be refused as carrying other content. */
  ghost predicate AnswersAsMarked(o: Origin, log: seq<Request>, q: Request, row: Option<Cursor>, at: Marks, c: Client) {
    var base := o.start.aggregate.recordCount;
    && (FoundCorrupt(c) <==> CursorReadTorn(o, log, row, at))
    && (IsReplay(c) <==> !CursorReadTorn(o, log, row, at) && row.Some? && q.sequence == base + at.row && q.digest == row.value.digest)
    && (IsReplay(c) ==>
          && c.q == q && c.reply.next == q.sequence + 1 && c.reply.recordCount == q.sequence
          && (c.reply.behaviorComplete <==> CompleteAt(o, log, base + at.header)))
    && (!CursorReadTorn(o, log, row, at) && row.None? && Holds(o, at.hasAggregate) && q.sequence == base + at.aggregate ==>
          c == Answered(q, Refused(ErrSequence)))
  }

  lemma DecidedAnswers(o: Origin, log: seq<Request>, q: Request, run: EvaluationRun, row: Option<Cursor>, at: Marks, c: Client)
    requires DecidesAsMarked(o, log, q, run, row, at, c)
    requires row.Some? ==> row.value.next == o.start.aggregate.recordCount + 1 + at.row && Holds(o, at.hasAggregate)
    ensures AnswersAsMarked(o, log, q, row, at, c)
  {
    hide ReadsAsOne, CompleteAt, ValidFacts;
  }

  /** What any client that is still deciding whether to admit its request does, whatever was accepted between its statements:
      the answer, or that it goes on, is decided by when they ran. It finds the store corrupt if and only if its statements
      do not pass for one moment's; it replays if and only if they do, it read a cursor row, and its request is the one
      that row stands behind. */
  lemma CursorReaderAnswer(o: Origin, s: System, q: Request, run: EvaluationRun, row: Option<Cursor>, seen: Reads, at: Marks)
    requires StoreInvariant(o, s) && ClientInvariant(o, s, ReadingCursor(q, run, row, seen, at)) && Finished(seen)
    ensures var c := Admit(q, run, StateFrom(row, EvidenceRead(seen, run.environment)));
            DecidesAsMarked(o, s.log, q, run, row, at, c) && AnswersAsMarked(o, s.log, q, row, at, c)
  {
    hide *;
    var outcome := EvidenceRead(seen, run.environment);
    OriginSays(o, s);
    FoldSays(o, s);
    CursorReaderSays(o, s, q, run, row, seen, at);
    RowKnown(o, s.log, at.row, row);
    RowHolds(o, s.log, row, seen, at);
    EvidenceReadIff(o, s.log, seen, at, at.row);
    if ReadsAsOne(o, s.log, at) && Holds(o, at.hasAggregate) {
      AnswerOfPresent(o, s.log, q, run, row, at, outcome);
    } else {
      UnheldIsNew(o, at);
      AnswerOfAbsent(o, s.log, q, run, row, at, outcome);
    }
    DecidedAnswers(o, s.log, q, run, row, at, Admit(q, run, StateFrom(row, outcome)));
  }

  lemma UnheldIsNew(o: Origin, at: Marks)
    requires ValidOrigin(o)
    ensures !Holds(o, at.hasAggregate) ==> o.start.aggregate.recordCount == 0
  {
    hide ValidReduced;
  }

  /** Evidence is never gone once a row has been read. */
  lemma RowHolds(o: Origin, log: seq<Request>, row: Option<Cursor>, seen: Reads, at: Marks)
    requires ReadAt(o, log, seen, at, at.row) && Finished(seen) && (row.Some? ==> Holds(o, at.row))
    ensures row.Some? ==> Holds(o, at.hasAggregate)
  {
    hide After, SnapshotOf;
  }

  // ---- When a replay is right ---------------------------------------------------------------------------------

  /** Some request accepted between two moments saturated the collector. */
  ghost predicate SaturatedBetween(o: Origin, log: seq<Request>, n: nat, m: nat) {
    exists k :: n <= k < m && SaturatesAt(o, log, k)
  }

  ghost predicate SaturatesAt(o: Origin, log: seq<Request>, k: nat) {
    CompleteAt(o, log, o.start.aggregate.recordCount + k) && !CompleteAt(o, log, o.start.aggregate.recordCount + k + 1)
  }

  lemma {:induction false} LosesBetween(o: Origin, log: seq<Request>, n: nat, m: nat)
    requires FoldLog(o.start, log).Ok? && n <= m <= |log|
    ensures SaturatedBetween(o, log, n, m) <==>
            CompleteAt(o, log, o.start.aggregate.recordCount + n) && !CompleteAt(o, log, o.start.aggregate.recordCount + m)
  {
    hide CompleteAt, FoldLog, After;
    forall k | n <= k < m && SaturatesAt(o, log, k)
      ensures CompleteAt(o, log, o.start.aggregate.recordCount + n) && !CompleteAt(o, log, o.start.aggregate.recordCount + m)
    {
      CompleteIs(o, log, k);
      CompleteEarlier(o, log, n, k);
      if CompleteAt(o, log, o.start.aggregate.recordCount + m) {
        CompleteIs(o, log, m);
        CompleteEarlier(o, log, k + 1, m);
      }
    }
    if n < m && CompleteAt(o, log, o.start.aggregate.recordCount + n) && !CompleteAt(o, log, o.start.aggregate.recordCount + m)
       && !SaturatesAt(o, log, m - 1) {
      LosesBetween(o, log, n, m - 1);
    }
  }

  /** What a replay found while reading says of the behavioral evidence is right if and only if no request accepted between
      reading the aggregate and reading the snapshot row saturated the collector. */
  lemma ReplayRightIff(o: Origin, s: System, q: Request, run: EvaluationRun, row: Option<Cursor>, seen: Reads, at: Marks)
    requires StoreInvariant(o, s) && ClientInvariant(o, s, ReadingCursor(q, run, row, seen, at)) && Finished(seen)
    ensures var answer := Admit(q, run, StateFrom(row, EvidenceRead(seen, run.environment)));
            IsReplay(answer) ==> (SaysRight(o, s.log, q, answer.reply) <==> !SaturatedBetween(o, s.log, at.aggregate, at.header))
  {
    hide *;
    var answer := Admit(q, run, StateFrom(row, EvidenceRead(seen, run.environment)));
    CursorReaderAnswer(o, s, q, run, row, seen, at);
    OriginSays(o, s);
    FoldSays(o, s);
    CursorReaderSays(o, s, q, run, row, seen, at);
    RowKnown(o, s.log, at.row, row);
    if row.Some? {
      RowHolds(o, s.log, row, seen, at);
    }
    ReplayMarks(o, s.log, q, row, seen, at, answer);
    if IsReplay(answer) {
      LosesBetween(o, s.log, at.aggregate, at.header);
      CompleteOrder(o, s.log, at.aggregate, at.header);
      ReplaySays(o, s.log, q, answer);
    }
  }

  lemma CompleteOrder(o: Origin, log: seq<Request>, n: nat, m: nat)
    requires FoldLog(o.start, log).Ok? && n <= m <= |log|
    ensures CompleteAt(o, log, o.start.aggregate.recordCount + m) ==> CompleteAt(o, log, o.start.aggregate.recordCount + n)
  {
    hide FoldLog, CompleteAt;
    CompleteIs(o, log, m);
    if CompleteAt(o, log, o.start.aggregate.recordCount + m) {
      CompleteEarlier(o, log, n, m);
    }
  }

  lemma ReplaySays(o: Origin, log: seq<Request>, q: Request, c: Client)
    requires IsReplay(c)
    ensures SaysRight(o, log, q, c.reply) <==> (c.reply.behaviorComplete <==> CompleteAt(o, log, q.sequence))
  {
    hide CompleteAt;
  }

  lemma ReplayMarks(o: Origin, log: seq<Request>, q: Request, row: Option<Cursor>, seen: Reads, at: Marks, c: Client)
    requires AnswersAsMarked(o, log, q, row, at, c) && ReadAt(o, log, seen, at, at.row) && Finished(seen)
    requires row.Some? ==> Holds(o, at.hasAggregate)
    ensures IsReplay(c) ==>
              && c.reply.Success? && q.sequence == o.start.aggregate.recordCount + at.aggregate && at.aggregate <= at.header <= |log|
              && (c.reply.behaviorComplete <==> CompleteAt(o, log, o.start.aggregate.recordCount + at.header))
  {
    hide CompleteAt, ReadsAsOne, After, SnapshotOf;
  }

  // ---- What a client that read the evidence is answered -------------------------------------------------------

  /** What a client folds its record into: the aggregate of one moment with the behaviors of another. */
  ghost function FoldedInto(o: Origin, log: seq<Request>, at: Marks): Reduced {
    if Holds(o, at.hasAggregate) && at.aggregate <= |log| && at.header <= |log|
    then Reduced(After(o, log, at.aggregate).aggregate, After(o, log, at.header).collector)
    else Empty(o.start.aggregate.environment)
  }

  /** Why a client that has read the evidence to fold into is refused: its statements do not pass for one moment's, or the
      record does not fold into what they read, or leaves no observation. Nothing where it goes on to commit. */
  ghost function FoldRefusal(o: Origin, log: seq<Request>, q: Request, at: Marks): Option<IngestError> {
    if !ReadsAsOne(o, log, at) then Some(ErrStoreCorrupt)
    else
      match Reduce(FoldedInto(o, log, at), q.record, q.facts)
      case Err(e) => Some(e)
      case Ok(_) => if Observable(q) then None else Some(ErrInvalidObservation)
  }

  ghost predicate PreparesAsMarked(o: Origin, log: seq<Request>, q: Request, at: Marks, c: Client) {
    match FoldRefusal(o, log, q, at)
    case Some(e) => c == Answered(q, Refused(e))
    case None =>
      var x := FoldedInto(o, log, at);
      Reduce(x, q.record, q.facts).Ok? && c == Prepared(q, CommitFor(q, q.sequence, x, Reduce(x, q.record, q.facts).value))
  }

  lemma ObservedNeverCorrupt(c: CollectorState, r: Record, f: Facts)
    ensures Observed(c, r, f).1 != Some(ErrStoreCorrupt)
  {
    hide Observe, F.Observe, ReadDuration, ValidIdentity, ValidFacts;
  }

  lemma ReduceNeverCorrupt(x: Reduced, r: Record, f: Facts)
    ensures Reduce(x, r, f) != Err(ErrStoreCorrupt)
  {
    hide Observed, ReadDuration;
    ObservedNeverCorrupt(x.collector, r, f);
  }

  /** So a fold is never mistaken for corruption. */
  lemma RefusedAsCorrupt(o: Origin, log: seq<Request>, q: Request, at: Marks)
    ensures FoldRefusal(o, log, q, at) == Some(ErrStoreCorrupt) <==> !ReadsAsOne(o, log, at)
  {
    hide ReadsAsOne, Reduce, FoldedInto, Observable;
    ReduceNeverCorrupt(FoldedInto(o, log, at), q.record, q.facts);
  }

  lemma MarkedCurrent(o: Origin, log: seq<Request>, at: Marks, outcome: Result<Option<StoredEvidence>, IngestError>)
    requires ValidOrigin(o) && FoldLog(o.start, log).Ok? && YieldsAsMarked(o, log, at, outcome) && ReadsAsOne(o, log, at)
    ensures outcome.Ok? && Current(outcome.value, o.start.aggregate.environment) == Ok(FoldedInto(o, log, at))
  {
    hide FoldLog, ValidOrigin, After, ReadsAsOne, SnapshotOf, Restored, EntriesValid, IdentitiesValid, SoundAggregate, CountsAgree;
    if outcome.Ok? && outcome.value.Some? {
      AfterCounts(o, log, at.header);
      RestoreInvertsSnapshot(After(o, log, at.header).collector);
    }
  }

  lemma TornYields(o: Origin, log: seq<Request>, at: Marks, outcome: Result<Option<StoredEvidence>, IngestError>)
    requires YieldsAsMarked(o, log, at, outcome) && !ReadsAsOne(o, log, at)
    ensures outcome == Err(ErrStoreCorrupt)
  {
    hide After, ReadsAsOne, SnapshotOf;
  }

  lemma PreparedAs(o: Origin, log: seq<Request>, q: Request, at: Marks)
    requires ReadsAsOne(o, log, at)
    ensures PreparesAsMarked(o, log, q, at, Prepare(q, q.sequence, Ok(FoldedInto(o, log, at))))
  {
    hide ReadsAsOne, Reduce, FoldedInto, Observable, CommitFor;
  }

  lemma TornPrepares(o: Origin, log: seq<Request>, q: Request, at: Marks)
    requires !ReadsAsOne(o, log, at)
    ensures PreparesAsMarked(o, log, q, at, Answered(q, Refused(ErrStoreCorrupt)))
  {
    hide ReadsAsOne, FoldedInto;
  }

  lemma GatheredIs(q: Request, next: U64, outcome: Result<Option<StoredEvidence>, IngestError>, environment: string)
    ensures Gathered(q, next, outcome, environment) ==
            if outcome.Ok? then Prepare(q, next, Current(outcome.value, environment)) else Answered(q, Refused(outcome.error))
  {
    hide Prepare, Current;
  }

  /** What any client that has read the evidence to fold into does, whatever was accepted since it was admitted: it prepares
      its commit if and only if its statements pass for one moment's, its record folds into what they read, and the
      observation is complete; otherwise the first of these that fails is the refusal. */
  lemma EvidenceReaderAnswer(o: Origin, s: System, q: Request, run: EvaluationRun, next: U64, seen: Reads, at: Marks)
    requires StoreInvariant(o, s) && ClientInvariant(o, s, ReadingEvidence(q, run, next, seen, at)) && Finished(seen)
    ensures PreparesAsMarked(o, s.log, q, at, Gathered(q, next, EvidenceRead(seen, run.environment), run.environment))
  {
    hide *;
    var outcome := EvidenceRead(seen, run.environment);
    OriginSays(o, s);
    FoldSays(o, s);
    EvidenceReaderSays(o, s, q, run, next, seen, at);
    EvidenceReadIff(o, s.log, seen, at, next - o.start.aggregate.recordCount - 1);
    GatheredIs(q, next, outcome, run.environment);
    if ReadsAsOne(o, s.log, at) {
      MarkedCurrent(o, s.log, at, outcome);
      PreparedAs(o, s.log, q, at);
    } else {
      TornYields(o, s.log, at, outcome);
      TornPrepares(o, s.log, q, at);
    }
  }

  // ---- Over executions ----------------------------------------------------------------------------------------

  /** A replay found while reading, with a saturating request between the aggregate and the snapshot row. */
  ghost predicate Misread(o: Origin, log: seq<Request>, c: Client) {
    c.ReadingCursor? && SaturatedBetween(o, log, c.at.aggregate, c.at.header)
  }

  /** Requests were accepted between the first and the last statement of the client's read. */
  predicate GrewWhileReading(o: Origin, c: Client) {
    match c
    case ReadingCursor(_, _, _, _, at) => at.row < LastMark(o, at)
    case ReadingEvidence(_, _, _, _, at) => at.hasAggregate < LastMark(o, at)
    case _ => false
  }

  lemma NotTimelyNow(o: Origin, log: seq<Request>, n: nat)
    requires FedByTimely(o, log) && n <= |log| && !Timely(o, log[..n])
    ensures !Timely(o, log)
  {
    hide Timely;
    if Timely(o, log) {
      TimelyPrefix(o, log, n);
    }
  }

  lemma TornMeansGrown(o: Origin, log: seq<Request>, seen: Reads, at: Marks, first: nat)
    requires FedByTimely(o, log) && ReadAt(o, log, seen, at, first) && Finished(seen) && !ReadsAsOne(o, log, at)
    ensures at.hasAggregate < LastMark(o, at) || !Timely(o, log)
  {
    hide After, Timely, SnapshotOf, FedByTimely, ReadsAsOne;
    if LastMark(o, at) <= at.hasAggregate {
      SameMomentReadsAsOne(o, log, seen, at, first);
      NotTimelyNow(o, log, at.hasAggregate);
    }
  }

  lemma MarksOrdered(o: Origin, log: seq<Request>, seen: Reads, at: Marks, first: nat)
    requires ReadAt(o, log, seen, at, first) && Finished(seen)
    ensures first <= at.hasAggregate <= LastMark(o, at)
    ensures Holds(o, at.hasAggregate) ==> at.aggregate <= LastMark(o, at)
  {
    hide After, SnapshotOf;
  }

  lemma RowMeansGrown(o: Origin, log: seq<Request>, row: Option<Cursor>, seen: Reads, at: Marks)
    requires FedByTimely(o, log) && ReadAt(o, log, seen, at, at.row) && Finished(seen) && CursorReadTorn(o, log, row, at)
    requires row.Some? ==> Holds(o, at.hasAggregate)
    ensures at.row < LastMark(o, at) || !Timely(o, log)
  {
    hide ReadsAsOne, FedByTimely, Timely, LastMark, ReadAt, Finished;
    MarksOrdered(o, log, seen, at, at.row);
    if !ReadsAsOne(o, log, at) {
      TornMeansGrown(o, log, seen, at, at.row);
    } else {
      AggregateAfterRow(o, log, seen, at);
    }
  }

  lemma AggregateAfterRow(o: Origin, log: seq<Request>, seen: Reads, at: Marks)
    requires ReadAt(o, log, seen, at, at.row) && Finished(seen) && Holds(o, at.hasAggregate)
    ensures at.row <= at.aggregate
  {
    hide After, SnapshotOf;
  }

  /** The client's next step answers it. */
  ghost predicate AnswersNow(s: System, id: nat, q: Request, reply: Reply) {
    id in s.clients && !s.clients[id].Answered? && ClientStep(s.d, |s.log|, s.clients[id]).1 == Answered(q, reply)
  }

  /** Only a client that has read everything, or that commits, is answered with success. */
  lemma AnsweringClient(o: Origin, s: System, c: Client, q: Request, reply: Reply)
    requires !c.Answered? && ClientStep(s.d, |s.log|, c).1 == Answered(q, reply)
    ensures c.ReadingCursor? ==> Finished(c.seen) && Answered(q, reply) == Admit(c.q, c.run, StateFrom(c.row, EvidenceRead(c.seen, c.run.environment)))
    ensures c.ReadingEvidence? ==>
              Finished(c.seen) && Answered(q, reply) == Gathered(c.q, c.next, EvidenceRead(c.seen, c.run.environment), c.run.environment)
    ensures c.Prepared? ==> q == c.q && reply == ReplyTo(CommitSpec(s.d, c.commit).1)
    ensures c.Submitted? ==> reply.Refused? && reply.error != ErrStoreCorrupt
    ensures !c.RunSeen?
  {
    hide Admit, Gathered, StateFrom, EvidenceRead, Finished, CommitSpec, ReadNext, Marked;
  }

  lemma GatheredRefuses(q: Request, next: U64, outcome: Result<Option<StoredEvidence>, IngestError>, environment: string)
    ensures Gathered(q, next, outcome, environment).Answered? ==> Gathered(q, next, outcome, environment).reply.Refused?
  {
    hide Reduce, Current, Observable, CommitFor;
  }

  lemma ReadersReplay(q: Request, run: EvaluationRun, state: Result<IngestState, IngestError>)
    ensures Admit(q, run, state).Answered? && Admit(q, run, state).reply.Success? ==> IsReplay(Admit(q, run, state))
  {
    hide ValidFacts;
  }

  /** A success reply says of the behavioral evidence what was true at its sequence unless it is a misread replay. */
  lemma AnswerRightIff(o: Origin, s: System, id: nat, t: System, q: Request, reply: Reply)
    requires Invariant(o, s) && Next(s, Step(id), t) && AnswersNow(s, id, q, reply) && reply.Success?
    ensures SaysRight(o, t.log, q, reply) <==> !Misread(o, s.log, s.clients[id])
  {
    hide *;
    StepSays(s, id, t);
    InvariantSays(o, s, id);
    StepKeepsOwn(o, s, id, t);
    AnswerFacts(s, id, q, reply);
    var c := s.clients[id];
    AnsweringClient(o, s, c, q, reply);
    MisreadSays(o, s.log, c);
    if c.Prepared? {
      CommitAnswerSays(o, t, id, q, reply);
    } else if c.ReadingEvidence? {
      GatheredRefuses(c.q, c.next, EvidenceRead(c.seen, c.run.environment), c.run.environment);
    } else if c.ReadingCursor? {
      QuietStepKeepsOwn(o, s, c);
      ReadersReplay(c.q, c.run, StateFrom(c.row, EvidenceRead(c.seen, c.run.environment)));
      ReaderRightIff(o, s, c, q, reply);
    }
  }

  lemma AnswerFacts(s: System, id: nat, q: Request, reply: Reply)
    requires AnswersNow(s, id, q, reply)
    ensures id in s.clients && !s.clients[id].Answered? && ClientStep(s.d, |s.log|, s.clients[id]).1 == Answered(q, reply)
  {
    hide ClientStep;
  }

  lemma MisreadSays(o: Origin, log: seq<Request>, c: Client)
    ensures Misread(o, log, c) <==> c.ReadingCursor? && SaturatedBetween(o, log, c.at.aggregate, c.at.header)
  {
    hide SaturatedBetween;
  }

  lemma CommitAnswerSays(o: Origin, t: System, id: nat, q: Request, reply: Reply)
    requires CommitAnswerRight(o, t, id) && id in t.clients && t.clients[id] == Answered(q, reply)
    ensures reply.Success? ==> SaysRight(o, t.log, q, reply)
  {
    hide SaysRight;
  }

  lemma ReaderRightIff(o: Origin, s: System, c: Client, q: Request, reply: Reply)
    requires StoreInvariant(o, s) && ClientInvariant(o, s, c) && c.ReadingCursor? && Finished(c.seen)
    requires Answered(q, reply) == Admit(c.q, c.run, StateFrom(c.row, EvidenceRead(c.seen, c.run.environment)))
    requires IsReplay(Answered(q, reply))
    ensures SaysRight(o, s.log, q, reply) <==> !SaturatedBetween(o, s.log, c.at.aggregate, c.at.header)
  {
    hide *;
    ReplayRightIff(o, s, c.q, c.run, c.row, c.seen, c.at);
    AdmitKeepsRequest(c.q, c.run, StateFrom(c.row, EvidenceRead(c.seen, c.run.environment)));
  }

  lemma AdmitKeepsRequest(q: Request, run: EvaluationRun, state: Result<IngestState, IngestError>)
    ensures Admit(q, run, state).q == q
  {
    hide ValidFacts;
  }

  lemma RightInExtension(o: Origin, a: seq<Request>, b: seq<Request>, q: Request, reply: Reply)
    requires a <= b && SaysAccepted(o, a, q, reply)
    ensures SaysRight(o, b, q, reply) <==> SaysRight(o, a, q, reply)
  {
    hide CompleteAt, DigestAt;
    DigestWithin(o, a, q.sequence);
    CompleteInExtension(o, a, b, q.sequence);
  }

  /** In every execution: what a success reply says of the behavioral evidence is right, then and ever after, if and only if
      it is not a replay found while reading during which a request saturated the collector between reading the aggregate
      and reading the snapshot row. */
  lemma ReplyRightIff(o: Origin, states: seq<System>, actions: seq<Action>, i: nat, j: nat, id: nat, q: Request, reply: Reply)
    requires Execution(o, states, actions) && i < |actions| && i < j < |states| && actions[i] == Step(id)
    requires AnswersNow(states[i], id, q, reply) && reply.Success?
    ensures id in states[i].clients
    ensures SaysRight(o, states[j].log, q, reply) <==> !Misread(o, states[i].log, states[i].clients[id])
  {
    hide *;
    AnswerFacts(states[i], id, q, reply);
    InvariantAt(o, states, actions, i);
    InvariantAt(o, states, actions, i + 1);
    StepOf(o, states, actions, i);
    StepSays(states[i], id, states[i + 1]);
    AnswerRightIff(o, states[i], id, states[i + 1], q, reply);
    AnswerSays(o, states[i + 1], id, q, reply);
    LogGrows(o, states, actions, i + 1, j);
    RightInExtension(o, states[i + 1].log, states[j].log, q, reply);
  }

  lemma CorruptClient(o: Origin, s: System, c: Client, q: Request)
    requires StoreInvariant(o, s) && ClientInvariant(o, s, c) && !c.Answered?
    requires ClientStep(s.d, |s.log|, c).1 == Answered(q, Refused(ErrStoreCorrupt))
    ensures !Timely(o, s.log) || GrewWhileReading(o, c) || (c.Prepared? && !ValidDigest(c.q.digest))
  {
    hide *;
    OriginSays(o, s);
    FoldSays(o, s);
    CorruptIs(q);
    AnsweringClient(o, s, c, q, Refused(ErrStoreCorrupt));
    GrewSays(o, c);
    match c
    case Submitted(_) =>
    case RunSeen(_, _) =>
    case ReadingCursor(r, run, row, seen, at) =>
      CursorReaderAnswer(o, s, r, run, row, seen, at);
      CursorReaderSays(o, s, r, run, row, seen, at);
      RowKnown(o, s.log, at.row, row);
      RowHolds(o, s.log, row, seen, at);
      CorruptIsTorn(o, s.log, r, row, at, Answered(q, Refused(ErrStoreCorrupt)));
      RowMeansGrown(o, s.log, row, seen, at);
    case ReadingEvidence(r, run, next, seen, at) =>
      EvidenceReaderAnswer(o, s, r, run, next, seen, at);
      RefusedAsCorrupt(o, s.log, r, at);
      PreparedCorrupt(o, s.log, r, at, Answered(q, Refused(ErrStoreCorrupt)));
      EvidenceReaderSays(o, s, r, run, next, seen, at);
      if !ReadsAsOne(o, s.log, at) {
        TornMeansGrown(o, s.log, seen, at, next - o.start.aggregate.recordCount - 1);
      }
    case Prepared(r, commit) =>
      CommitAnswered(o, s, r, commit);
      CommitFoundCorrupt(o, s, r);
  }

  lemma PreparedCorrupt(o: Origin, log: seq<Request>, q: Request, at: Marks, c: Client)
    requires PreparesAsMarked(o, log, q, at, c)
    ensures FoundCorrupt(c) <==> FoldRefusal(o, log, q, at) == Some(ErrStoreCorrupt)
  {
    hide FoldRefusal, FoldedInto, Reduce;
  }

  lemma CommitFoundCorrupt(o: Origin, s: System, q: Request)
    requires q.sequence <= CursorOf(o, s.log)
    ensures CommitAnswer(o, s, q) == Refused(ErrStoreCorrupt) ==> !ValidDigest(q.digest) || !Timely(o, s.log)
  {
    hide ValidDigest, Timely, CompleteAt, DigestAt, CursorOf;
  }

  lemma CorruptIs(q: Request)
    ensures FoundCorrupt(Answered(q, Refused(ErrStoreCorrupt)))
  {
  }

  lemma GrewSays(o: Origin, c: Client)
    ensures c.ReadingCursor? ==> (GrewWhileReading(o, c) <==> c.at.row < LastMark(o, c.at))
    ensures c.ReadingEvidence? ==> (GrewWhileReading(o, c) <==> c.at.hasAggregate < LastMark(o, c.at))
  {
  }

  lemma CorruptIsTorn(o: Origin, log: seq<Request>, q: Request, row: Option<Cursor>, at: Marks, c: Client)
    requires AnswersAsMarked(o, log, q, row, at, c)
    ensures FoundCorrupt(c) <==> CursorReadTorn(o, log, row, at)
  {
    hide CursorReadTorn, CompleteAt;
  }

  /** In every execution: a client is told that the store is corrupt only if requests were accepted between the first and
      the last statement of its read, or the run's first record stood before the zero time, or its own digest is
      malformed. */
  lemma CorruptOnlyWhenTorn(o: Origin, states: seq<System>, actions: seq<Action>, i: nat, id: nat, q: Request)
    requires Execution(o, states, actions) && i < |states| && AnswersNow(states[i], id, q, Refused(ErrStoreCorrupt))
    ensures id in states[i].clients
    ensures var c := states[i].clients[id];
            !Timely(o, states[i].log) || GrewWhileReading(o, c) || (c.Prepared? && !ValidDigest(c.q.digest))
  {
    hide *;
    AnswerFacts(states[i], id, q, Refused(ErrStoreCorrupt));
    InvariantAt(o, states, actions, i);
    InvariantSays(o, states[i], id);
    CorruptClient(o, states[i], states[i].clients[id], q);
  }

  /** A run whose first record stood before the zero time reads back no more: nothing is accepted into it again, and every
      reader of its evidence, from then on, is told the store is corrupt. */
  lemma {:induction false} UntimelyForever(o: Origin, states: seq<System>, actions: seq<Action>, i: nat, j: nat)
    requires Execution(o, states, actions) && i <= j < |states| && !Timely(o, states[i].log)
    ensures states[j].log == states[i].log && StoredOutcome(states[j].d) == Err(ErrStoreCorrupt)
  {
    hide *;
    InvariantAt(o, states, actions, j);
    InvariantSays(o, states[j], 0);
    StoredOutcomeHere(o, states[j]);
    if i < j {
      UntimelyForever(o, states, actions, i, j - 1);
      InvariantAt(o, states, actions, j - 1);
      ExecutionLength(o, states, actions);
      StepOf(o, states, actions, j - 1);
      StepGrowsLog(o, states[j - 1], actions[j - 1], states[j]);
      OriginSays(o, states[j]);
      FoldSays(o, states[j]);
      GrownWasTimely(o, states[j - 1].log, states[j].log);
    }
  }

  lemma ExecutionLength(o: Origin, states: seq<System>, actions: seq<Action>)
    requires Execution(o, states, actions)
    ensures |states| == |actions| + 1
  {
    hide StepAt, Init;
  }

  lemma GrownWasTimely(o: Origin, a: seq<Request>, b: seq<Request>)
    requires FedByTimely(o, b) && a <= b && |b| <= |a| + 1
    ensures b == a || Timely(o, a)
  {
    hide Timely;
    if |b| == |a| + 1 {
      assert b[..|b| - 1] == a;
    }
  }
}
