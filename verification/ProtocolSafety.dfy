/** What every step of the ingest protocol keeps, and what that means over whole runs. */
module ProtocolSafety {
  import opened Bounded
  import opened Ordering
  import opened BehaviorOperational
  import opened Aggregate
  import opened Collector
  import opened Evidence
  import opened Runs
  import opened Counting
  import opened Retention
  import opened Ingest
  import opened Protocol

  lemma OriginIsValid(o: Origin)
    requires ValidOrigin(o)
    ensures ValidReduced(o.start)
  {
    hide ValidReduced;
    EmptyIsValidReduced(o.start.aggregate.environment);
  }

  /** Whatever the log reduces to is valid, counts its records and is of the run's environment. */
  lemma {:induction false} FoldFacts(o: Origin, log: seq<Request>)
    requires ValidOrigin(o) && FoldLog(o.start, log).Ok?
    ensures ValidReduced(FoldLog(o.start, log).value)
    ensures FoldLog(o.start, log).value.aggregate.recordCount == o.start.aggregate.recordCount + |log|
    ensures FoldLog(o.start, log).value.aggregate.environment == o.start.aggregate.environment
  {
    hide ValidReduced, ValidOrigin, Reduce;
    if log == [] {
      OriginIsValid(o);
    } else {
      var init, last := log[..|log| - 1], log[|log| - 1];
      FoldFacts(o, init);
      ReduceKeepsValid(FoldLog(o.start, init).value, last.record, last.facts);
    }
  }

  // ---- Reading a store that satisfies the invariant -----------------------------------------------------------

  lemma ReassembledIsItself(s: BehaviorSnapshot)
    ensures Assembled(HeaderOf(s), s.entries) == s
  {
  }

  /** What is reduced passes every check made when it is read back exactly when it is dated. */
  lemma ReducedIsTrusted(x: Reduced)
    requires ValidReduced(x)
    ensures var s := SnapshotOf(x.collector);
            Trusted(x.aggregate, s, HeaderOf(s).distinct, x.aggregate.environment) <==> Dated(x.aggregate)
  {
    hide ValidAggregate, SoundAggregate, Dated, ValidCollector, IdentitiesValid, RestoredSnapshotValid, SnapshotOf, PairAgrees, CountsAgree;
    ValidIffDated(x.aggregate);
    StoredSnapshotReadsBack(x.collector);
    StoredPairAgrees(x);
  }

  lemma {:induction false} FoldPrefix(start: Reduced, log: seq<Request>, k: nat)
    requires k <= |log| && FoldLog(start, log).Ok?
    ensures FoldLog(start, log[..k]).Ok?
  {
    hide Reduce;
    if k == |log| {
      assert log[..k] == log;
    } else {
      FoldPrefix(start, log[..|log| - 1], k);
      assert log[..|log| - 1][..k] == log[..k];
    }
  }

  lemma TimelyPrefix(o: Origin, log: seq<Request>, k: nat)
    requires k <= |log| && Timely(o, log)
    ensures Timely(o, log[..k]) && FedByTimely(o, log[..k])
  {
  }

  lemma TimelyOneMore(o: Origin, log: seq<Request>, q: Request)
    requires Timely(o, log)
    ensures Timely(o, log + [q]) <==> CursorOf(o, log) > 1 || q.record.timestamp > 0
  {
  }

  lemma StartDated(o: Origin)
    requires ValidOrigin(o)
    ensures Dated(o.start.aggregate) <==> Timely(o, [])
  {
    hide CountersValid, ValidCollector, IdentitiesValid;
    OriginIsValid(o);
  }

  lemma DatedOneMore(o: Origin, init: seq<Request>, last: Request)
    requires ValidOrigin(o) && FoldLog(o.start, init + [last]).Ok? && Timely(o, init) && FoldLog(o.start, init).Ok?
    requires Dated(FoldLog(o.start, init).value.aggregate)
    ensures Dated(FoldLog(o.start, init + [last]).value.aggregate) <==> Timely(o, init + [last])
  {
    hide FoldLog, ValidReduced, ValidOrigin, Reduce, Dated, Timely;
    FoldLogSnoc(o.start, init, last);
    FoldFacts(o, init);
    ReduceKeepsDated(FoldLog(o.start, init).value, last.record, last.facts);
    TimelyOneMore(o, init, last);
  }

  /** The evidence of a log each of whose requests was folded into dated evidence is dated exactly when the log is timely. */
  lemma {:induction false} FoldDated(o: Origin, log: seq<Request>)
    requires ValidOrigin(o) && FoldLog(o.start, log).Ok? && FedByTimely(o, log)
    ensures Dated(FoldLog(o.start, log).value.aggregate) <==> Timely(o, log)
  {
    hide ValidReduced, ValidOrigin, Reduce, Dated, Timely;
    if log == [] {
      StartDated(o);
    } else {
      var init, last := log[..|log| - 1], log[|log| - 1];
      TimelyPrefix(o, init, |init|);
      assert init[..|init|] == init && log == init + [last];
      FoldDated(o, init);
      DatedOneMore(o, init, last);
    }
  }

  lemma UntouchedIsTimely(o: Origin, log: seq<Request>)
    requires ValidOrigin(o) && !Holds(o, |log|)
    ensures Timely(o, log) && o.start.aggregate.recordCount == 0
  {
    hide ValidReduced;
  }

  /** What ingest stored reads back as it was stored exactly when the run is timely: otherwise the first accepted record
      stood before the zero time, and every read is refused as corrupt. */
  lemma StoredReadsBack(o: Origin, s: System)
    requires ValidOrigin(o) && EvidenceIsFold(o, s) && s.d.run.environment == o.start.aggregate.environment
    ensures StoredOutcome(s.d) == if Timely(o, s.log) then Ok(s.d.evidence) else Err(ErrStoreCorrupt)
  {
    hide ValidReduced, ValidOrigin, FoldLog, Trusted, SnapshotOf, Timely, FedByTimely, Dated;
    if Holds(o, |s.log|) {
      var x := FoldLog(o.start, s.log).value;
      FoldFacts(o, s.log);
      FoldDated(o, s.log);
      ReducedIsTrusted(x);
      ReassembledIsItself(SnapshotOf(x.collector));
    } else {
      UntouchedIsTimely(o, s.log);
    }
  }

  // ---- What is stored now -------------------------------------------------------------------------------------

  lemma StoredIsAfter(o: Origin, s: System)
    requires EvidenceIsFold(o, s)
    ensures s.d.evidence == if Holds(o, |s.log|) then Some(EvidenceOf(After(o, s.log, |s.log|))) else None
    ensures FoldLog(o.start, s.log) == Ok(After(o, s.log, |s.log|))
  {
    hide FoldLog, EvidenceOf;
    assert s.log[..|s.log|] == s.log;
  }

  /** The digest a cursor row carries is that of the last request accepted when it stood. */
  lemma RowKnown(o: Origin, log: seq<Request>, n: nat, row: Option<Cursor>)
    requires n <= |log| && RowAfter(o, log, n, row) && LogSequenced(o, log) && ValidOrigin(o)
    ensures row.Some? ==> && row.value.next == o.start.aggregate.recordCount + 1 + n && ValidDigest(row.value.digest)
                          && DigestAt(o, log, row.value.next - 1) == Some(row.value.digest) && Holds(o, n)
    ensures row.None? <==> n == 0 && o.cursorDigest.None?
  {
    hide ValidReduced, ValidDigest;
  }

  lemma EvidenceCount(o: Origin, s: System)
    requires StoreInvariant(o, s)
    ensures s.d.evidence.Some? ==> s.d.evidence.value.aggregate.recordCount + 1 == CursorOf(o, s.log)
    ensures s.d.evidence.None? ==> CursorOf(o, s.log) == 1 && s.d.cursor.None?
  {
    hide ValidReduced, IsBlock, ValidDigest, SnapshotOf, LogSequenced, FoldLog, FedByTimely;
    FoldFacts(o, s.log);
    EmptyCounts(o.start.aggregate.environment);
  }

  /** The ingest state a reader of this moment is given. */
  lemma StateOfStore(o: Origin, s: System)
    requires StoreInvariant(o, s)
    ensures if !Timely(o, s.log) then StateOf(s.d) == Err(ErrStoreCorrupt)
            else if CursorOf(o, s.log) > MAX_UINT64 then StateOf(s.d) == Err(ErrSequence)
            else
              && StateOf(s.d).Ok?
              && StateOf(s.d).value.next == CursorOf(o, s.log)
              && StateOf(s.d).value.recordCount == CursorOf(o, s.log) - 1
              && StateOf(s.d).value.digest == (if s.d.cursor.Some? then s.d.cursor.value.digest else "")
  {
    hide StoreInvariant, StoredOutcome, StateFrom, ValidDigest, RowAfter, Timely, DigestAt, LogSequenced, EvidenceIsFold, ValidOrigin, IsBlock,
         Observations;
    OriginSays(o, s);
    StoredReadsBack(o, s);
    CursorSays(o, s);
    RowKnown(o, s.log, |s.log|, s.d.cursor);
    EvidenceCount(o, s);
    StateUnfolds(s.d, CursorOf(o, s.log));
  }

  lemma StateUnfolds(d: Durable, next: nat)
    requires d.evidence.Some? ==> d.evidence.value.aggregate.recordCount + 1 == next
    requires d.evidence.None? ==> next == 1 && d.cursor.None?
    requires d.cursor.Some? ==> d.cursor.value.next == next && ValidDigest(d.cursor.value.digest) && next >= 1
    ensures StoredOutcome(d) == Err(ErrStoreCorrupt) ==> StateOf(d) == Err(ErrStoreCorrupt)
    ensures StoredOutcome(d) == Ok(d.evidence) ==>
              if next > MAX_UINT64 then StateOf(d) == Err(ErrSequence)
              else && StateOf(d).Ok? && StateOf(d).value.next == next && StateOf(d).value.recordCount == next - 1
                   && StateOf(d).value.digest == (if d.cursor.Some? then d.cursor.value.digest else "")
                   && (d.evidence.Some? ==> StateOf(d).value.behaviorComplete == d.evidence.value.snapshot.complete)
  {
    hide StoredOutcome, ValidDigest;
  }

  lemma CursorSays(o: Origin, s: System)
    requires StoreInvariant(o, s)
    ensures RowAfter(o, s.log, |s.log|, s.d.cursor)
  {
    hide ValidOrigin, LogSequenced, EvidenceIsFold, IsBlock, RowAfter;
  }

  // ---- The log only grows -------------------------------------------------------------------------------------

  lemma DigestStable(o: Origin, log: seq<Request>, q: Request, sequence: nat)
    ensures DigestAt(o, log, sequence).Some? ==> DigestAt(o, log + [q], sequence) == DigestAt(o, log, sequence)
    ensures q.sequence == CursorOf(o, log) ==> DigestAt(o, log + [q], q.sequence) == Some(q.digest)
  {
  }

  lemma CompleteStable(o: Origin, log: seq<Request>, q: Request, sequence: nat)
    requires sequence < CursorOf(o, log)
    ensures CompleteAt(o, log + [q], sequence) <==> CompleteAt(o, log, sequence)
  {
    hide FoldLog;
    var k := sequence - o.start.aggregate.recordCount;
    if k >= 0 {
      assert (log + [q])[..k] == log[..k];
    }
  }

  lemma AfterStable(o: Origin, log: seq<Request>, q: Request, n: nat)
    requires n <= |log|
    ensures After(o, log + [q], n) == After(o, log, n)
  {
    hide FoldLog;
    assert (log + [q])[..n] == log[..n];
  }

  lemma ReadStable(o: Origin, log: seq<Request>, q: Request, seen: Reads, at: Marks, first: nat)
    requires ReadAt(o, log, seen, at, first)
    ensures ReadAt(o, log + [q], seen, at, first)
  {
    hide After, HeaderOf, SnapshotOf;
    if seen.aggregate.Some? { AfterStable(o, log, q, at.aggregate); }
    if seen.header.Some? { AfterStable(o, log, q, at.header); }
    if seen.entries.Some? { AfterStable(o, log, q, at.entries); }
  }

  lemma RowStable(o: Origin, log: seq<Request>, q: Request, n: nat, row: Option<Cursor>)
    requires n <= |log| && RowAfter(o, log, n, row)
    ensures RowAfter(o, log + [q], n, row)
  {
  }

  lemma AcceptedStable(o: Origin, log: seq<Request>, q: Request, r: Request, reply: Reply)
    requires SaysAccepted(o, log, r, reply)
    ensures SaysAccepted(o, log + [q], r, reply)
  {
    hide CompleteAt, DigestAt;
    DigestStable(o, log, q, r.sequence);
    DigestWithin(o, log, r.sequence);
    CompleteStable(o, log, q, r.sequence);
  }

  lemma DigestWithin(o: Origin, log: seq<Request>, sequence: nat)
    ensures DigestAt(o, log, sequence).Some? ==> sequence < CursorOf(o, log)
  {
  }

  /** Saturation is sticky: nothing makes incomplete evidence complete again. */
  lemma ReduceSticky(x: Reduced, r: Record, f: Facts)
    requires Reduce(x, r, f).Ok? && Reduce(x, r, f).value.collector.complete
    ensures x.collector.complete
  {
    hide AddRecord, ObservedEntry;
  }

  lemma {:induction false} FoldSticky(start: Reduced, log: seq<Request>, k: nat)
    requires k <= |log| && FoldLog(start, log).Ok? && FoldLog(start, log).value.collector.complete
    ensures FoldLog(start, log[..k]).Ok? && FoldLog(start, log[..k]).value.collector.complete
  {
    hide Reduce;
    if k == |log| {
      assert log[..k] == log;
    } else {
      var init, last := log[..|log| - 1], log[|log| - 1];
      ReduceSticky(FoldLog(start, init).value, last.record, last.facts);
      FoldSticky(start, init, k);
      assert init[..k] == log[..k];
    }
  }

  /** Evidence complete after n requests was complete after every fewer. */
  lemma CompleteEarlier(o: Origin, log: seq<Request>, k: nat, n: nat)
    requires k <= n <= |log| && FoldLog(o.start, log).Ok? && After(o, log, n).collector.complete
    ensures CompleteAt(o, log, o.start.aggregate.recordCount + k)
  {
    hide FoldLog;
    FoldPrefix(o.start, log, n);
    FoldSticky(o.start, log[..n], k);
    assert log[..n][..k] == log[..k];
  }

  lemma CompleteIs(o: Origin, log: seq<Request>, n: nat)
    requires n <= |log| && FoldLog(o.start, log).Ok?
    ensures CompleteAt(o, log, o.start.aggregate.recordCount + n) <==> After(o, log, n).collector.complete
  {
    hide FoldLog;
    FoldPrefix(o.start, log, n);
  }

  lemma FoldLogSnoc(start: Reduced, log: seq<Request>, q: Request)
    requires FoldLog(start, log).Ok?
    ensures FoldLog(start, log + [q]) == Reduce(FoldLog(start, log).value, q.record, q.facts)
  {
    hide Reduce;
    assert (log + [q])[..|log|] == log;
  }

  lemma ObservationsSnoc(start: Reduced, log: seq<Request>, q: Request)
    requires FoldLog(start, log).Ok?
    ensures Observations(start, log + [q]) == Observations(start, log) + [ObservationFor(q, FoldLog(start, log).value.collector)]
  {
    assert (log + [q])[..|log|] == log;
  }

  // ---- Committing ---------------------------------------------------------------------------------------------

  /** The evidence a current commit carries is never stale and its two halves always agree: it is one record further than
      what is stored, and no longer complete only if it was not or the record saturated it. */
  lemma CurrentCommitPasses(o: Origin, s: System, q: Request, commit: Commit)
    requires StoreInvariant(o, s) && CommitIsCurrent(o, s.log, q, commit)
    ensures PairAgrees(commit.aggregate, commit.snapshot)
    ensures Timely(o, s.log) ==> StaleError(StoredOutcome(s.d), commit).None?
    ensures commit.aggregate.environment == s.d.run.environment
  {
    hide ValidReduced, IsBlock, ValidDigest, StoredOutcome, Reduce, LogSequenced, CursorIsLog, ObservationFor, PairAgrees, Timely, FedByTimely,
         SameAggregate;
    var x := FoldLog(o.start, s.log).value;
    FoldFacts(o, s.log);
    ReduceKeepsValid(x, q.record, q.facts);
    StoredReadsBack(o, s);
    PreparedPairAgrees(Reduce(x, q.record, q.facts).value);
  }

  lemma PreparedPairAgrees(y: Reduced)
    requires ValidReduced(y)
    ensures PairAgrees(y.aggregate, SnapshotOf(y.collector))
  {
    hide SoundAggregate, ValidCollector, IdentitiesValid, SnapshotOf, PairAgrees, CountsAgree;
    StoredPairAgrees(y);
  }

  lemma ObservationIs(o: Origin, log: seq<Request>, q: Request, commit: Commit)
    requires CommitIsCurrent(o, log, q, commit)
    ensures FoldLog(o.start, log).Ok? && commit.observation == ObservationFor(q, FoldLog(o.start, log).value.collector)
    ensures commit.observation.sequence == q.sequence
  {
    hide Reduce, FoldLog, SnapshotOf;
  }

  lemma CurrentCommitRetains(o: Origin, s: System, q: Request, commit: Commit)
    requires StoreInvariant(o, s) && CommitIsCurrent(o, s.log, q, commit) && q.sequence == CursorOf(o, s.log)
    ensures Retain(s.d.retained, commit.observation).Some?
    ensures IsBlock(Retain(s.d.retained, commit.observation).value, o.start.aggregate.recordCount + 1, Observations(o.start, s.log + [q]))
  {
    hide StoreInvariant, CommitIsCurrent, IsBlock, Retain, Observations, ObservationFor, FoldLog, EvidenceIsFold, LogSequenced;
    OriginSays(o, s);
    ObservationIs(o, s.log, q, commit);
    ObservationsSnoc(o.start, s.log, q);
    ObservationsLength(o.start, s.log);
    RetainKeepsBlock(s.d.retained, o.start.aggregate.recordCount + 1, Observations(o.start, s.log), commit.observation);
  }

  lemma ObservationsLength(start: Reduced, log: seq<Request>)
    ensures |Observations(start, log)| == |log|
  {
  }

  /** The rows an accepted commit leaves. */
  ghost function Landed(d: Durable, c: Commit): Durable
    requires c.sequence < MAX_UINT64 && Retain(d.retained, c.observation).Some?
  {
    Durable(d.run, Some(Cursor(c.sequence + 1, c.digest)), Some(StoredEvidence(c.aggregate, c.snapshot)), Retain(d.retained, c.observation).value)
  }

  /** The commit writes its record: the evidence, the cursor past it and its observation, and says so. */
  ghost predicate Writes(d: Durable, c: Commit) {
    && c.sequence < MAX_UINT64 && Retain(d.retained, c.observation).Some?
    && CommitSpec(d, c).0 == Landed(d, c) && CommitSpec(d, c).1.Ok? && !CommitSpec(d, c).1.value.alreadyCommitted
    && CommitSpec(d, c).1.value.next == c.sequence + 1 && CommitSpec(d, c).1.value.recordCount == c.sequence
    && CommitSpec(d, c).1.value.behaviorComplete == c.snapshot.complete
  }

  /** A commit writes only when the cursor still stands where its client found it, the run is running, the digest is well
      formed and what is stored reads back; then it always writes, whatever the other guards of the transaction check. */
  lemma CommitLandsExactly(o: Origin, s: System, q: Request, commit: Commit)
    requires StoreInvariant(o, s) && ClientInvariant(o, s, Prepared(q, commit))
    ensures Accepts(s.d, Prepared(q, commit)) <==>
            && commit.sequence == CursorOf(o, s.log) && s.d.run.status == RunRunning
            && ValidDigest(commit.digest) && commit.sequence < MAX_UINT64 && Timely(o, s.log)
    ensures Accepts(s.d, Prepared(q, commit)) ==> Writes(s.d, commit)
  {
    hide *;
    PreparedSays(o, s, q, commit);
    StateOfStoreHere(o, s);
    AcceptedCommit(s.d, commit);
    AcceptsSays(s.d, q, commit);
    if commit.sequence == CursorOf(o, s.log) && Timely(o, s.log) {
      CurrentCommitLands(o, s, q, commit);
    }
  }

  lemma PreparedSays(o: Origin, s: System, q: Request, commit: Commit)
    requires ClientInvariant(o, s, Prepared(q, commit))
    ensures commit.previousNext == commit.sequence == q.sequence && commit.digest == q.digest
    ensures commit.observation.sequence == q.sequence && PairAgrees(commit.aggregate, commit.snapshot)
    ensures o.start.aggregate.recordCount < commit.sequence <= CursorOf(o, s.log)
    ensures commit.sequence == CursorOf(o, s.log) ==> CommitIsCurrent(o, s.log, q, commit)
  {
    hide CommitIsCurrent;
  }

  lemma AcceptsSays(d: Durable, q: Request, commit: Commit)
    ensures Accepts(d, Prepared(q, commit)) <==> CommitSpec(d, commit).1.Ok? && !CommitSpec(d, commit).1.value.alreadyCommitted
    ensures Writes(d, commit) ==> Accepts(d, Prepared(q, commit))
  {
    hide CommitSpec, Retain, Landed;
  }

  lemma CurrentCommitLands(o: Origin, s: System, q: Request, commit: Commit)
    requires StoreInvariant(o, s) && CommitIsCurrent(o, s.log, q, commit)
    requires q.sequence == CursorOf(o, s.log) && commit.previousNext == commit.sequence == q.sequence && Timely(o, s.log)
    ensures ValidDigest(commit.digest) && commit.sequence < MAX_UINT64 && s.d.run.status == RunRunning ==> Writes(s.d, commit)
  {
    hide *;
    StateOfStore(o, s);
    CurrentCommitPasses(o, s, q, commit);
    CurrentCommitRetains(o, s, q, commit);
    CurrentCommitCounts(o, s, q, commit);
    CommitWrites(s.d, commit);
  }

  lemma CommitWrites(d: Durable, c: Commit)
    requires PairAgrees(c.aggregate, c.snapshot) && c.observation.sequence == c.sequence == c.previousNext
    requires StateOf(d).Ok? && StateOf(d).value.next == c.previousNext && d.run.environment == c.aggregate.environment
    requires StaleError(StoredOutcome(d), c).None? && Retain(d.retained, c.observation).Some?
    requires c.aggregate.recordCount == c.sequence
    ensures ValidDigest(c.digest) && c.sequence < MAX_UINT64 && d.run.status == RunRunning ==> Writes(d, c)
  {
    hide ValidDigest, StateOf, StoredOutcome, StaleError, Retain, PairAgrees, HistoryOf;
  }

  lemma AcceptedCommit(d: Durable, c: Commit)
    ensures CommitSpec(d, c).1.Ok? && !CommitSpec(d, c).1.value.alreadyCommitted ==>
              && ValidDigest(c.digest) && c.sequence < MAX_UINT64 && d.run.status == RunRunning
              && StateOf(d).Ok? && StateOf(d).value.next == c.sequence
  {
    hide ValidDigest, StateOf, StoredOutcome, StaleError, Retain, PairAgrees, HistoryOf;
  }

  lemma StateOfStoreHere(o: Origin, s: System)
    requires StoreInvariant(o, s)
    ensures StateOf(s.d).Ok? ==> StateOf(s.d).value.next == CursorOf(o, s.log) && Timely(o, s.log)
    ensures CursorOf(o, s.log) <= MAX_UINT64 && Timely(o, s.log) ==> StateOf(s.d).Ok?
  {
    hide StoreInvariant, StateOf, Timely;
    StateOfStore(o, s);
  }

  /** A commit that reaches the stale-evidence guard carries one record more than what is stored. */
  lemma CommitIsOnePast(o: Origin, s: System, q: Request, commit: Commit)
    requires StoreInvariant(o, s) && ClientInvariant(o, s, Prepared(q, commit))
    requires StateOf(s.d).Ok? && StateOf(s.d).value.next == commit.previousNext
    ensures s.d.evidence.Some? ==> commit.aggregate.recordCount == s.d.evidence.value.aggregate.recordCount + 1
    ensures StoredOutcome(s.d) == Ok(s.d.evidence)
  {
    hide *;
    StateOfStoreHere(o, s);
    StoredOutcomeHere(o, s);
    PreparedSays(o, s, q, commit);
    CurrentCommitCounts(o, s, q, commit);
    EvidenceCount(o, s);
  }

  lemma CurrentCommitCounts(o: Origin, s: System, q: Request, commit: Commit)
    requires StoreInvariant(o, s) && CommitIsCurrent(o, s.log, q, commit) && q.sequence == CursorOf(o, s.log)
    ensures commit.aggregate.recordCount == q.sequence && commit.observation.sequence == q.sequence
  {
    hide ValidReduced, IsBlock, ValidDigest, Reduce, LogSequenced, CursorIsLog;
    FoldFacts(o, s.log);
    ReduceKeepsValid(FoldLog(o.start, s.log).value, q.record, q.facts);
  }

  /** What the commit transaction answers, whatever has happened since its evidence was read. */
  ghost function CommitAnswer(o: Origin, s: System, q: Request): Reply
    requires q.sequence <= CursorOf(o, s.log)
  {
    if !ValidDigest(q.digest) then Refused(ErrStoreCorrupt)
    else if q.sequence == MAX_UINT64 then Refused(ErrSequence)
    else if !Timely(o, s.log) then Refused(ErrStoreCorrupt)
    else if q.sequence == CursorOf(o, s.log) then
      if s.d.run.status != RunRunning then Refused(ErrEvaluationState)
      else Success(false, q.sequence + 1, q.sequence, CompleteAt(o, s.log + [q], q.sequence))
    else if q.sequence + 1 == CursorOf(o, s.log) && DigestAt(o, s.log, q.sequence) == Some(q.digest) then
      Success(true, q.sequence + 1, q.sequence, CompleteAt(o, s.log, q.sequence))
    else Refused(ErrSequence)
  }

  /** The answer of a commit that finds the cursor moved. */
  lemma MovedAnswer(d: Durable, c: Commit, next: nat)
    requires PairAgrees(c.aggregate, c.snapshot) && c.observation.sequence == c.sequence == c.previousNext < next
    requires !HistoryCorrupt(d.retained) && (StateOf(d).Ok? ==> StateOf(d).value.next == next)
    ensures !ValidDigest(c.digest) ==> CommitSpec(d, c).1 == Err(ErrStoreCorrupt)
    ensures ValidDigest(c.digest) && c.sequence == MAX_UINT64 ==> CommitSpec(d, c).1 == Err(ErrSequence)
    ensures ValidDigest(c.digest) && c.sequence < MAX_UINT64 && StateOf(d).Err? ==> CommitSpec(d, c).1 == Err(StateOf(d).error)
    ensures ValidDigest(c.digest) && c.sequence < MAX_UINT64 && StateOf(d).Ok? ==>
              if next == c.sequence + 1 && StateOf(d).value.digest == c.digest
              then CommitSpec(d, c).1.Ok? && ReplyTo(CommitSpec(d, c).1) ==
                                             Success(true, StateOf(d).value.next, StateOf(d).value.recordCount, StateOf(d).value.behaviorComplete)
              else CommitSpec(d, c).1 == Err(ErrSequence)
    ensures CommitSpec(d, c).0 == d
  {
    hide ValidDigest, StateOf, StoredOutcome, StaleError, Retain, PairAgrees, HistoryOf;
  }

  /** The answer of a commit whose cursor stands where its client found it, apart from writing. */
  lemma CurrentAnswer(d: Durable, c: Commit)
    requires PairAgrees(c.aggregate, c.snapshot) && c.observation.sequence == c.sequence == c.previousNext
    ensures !ValidDigest(c.digest) ==> CommitSpec(d, c) == (d, Err(ErrStoreCorrupt))
    ensures ValidDigest(c.digest) && c.sequence == MAX_UINT64 ==> CommitSpec(d, c) == (d, Err(ErrSequence))
    ensures ValidDigest(c.digest) && c.sequence < MAX_UINT64 && StateOf(d).Err? ==> CommitSpec(d, c) == (d, Err(StateOf(d).error))
    ensures ValidDigest(c.digest) && c.sequence < MAX_UINT64 && d.run.status != RunRunning
            && StateOf(d).Ok? && StateOf(d).value.next == c.sequence ==>
              CommitSpec(d, c) == (d, Err(ErrEvaluationState))
  {
    hide ValidDigest, StateOf, StoredOutcome, StaleError, Retain, PairAgrees, HistoryOf;
  }

  lemma BlockIsNotCorrupt(t: Retained, first: nat, accepted: seq<Observation>)
    requires IsBlock(t, first, accepted)
    ensures !HistoryCorrupt(t)
  {
  }

  /** The digest beside the stored cursor, where the log holds one. */
  lemma StateDigestIs(o: Origin, s: System, digest: string)
    requires StoreInvariant(o, s) && StateOf(s.d).Ok? && ValidDigest(digest)
    ensures StateOf(s.d).value.digest == digest <==> DigestAt(o, s.log, CursorOf(o, s.log) - 1) == Some(digest)
    ensures StateOf(s.d).value.digest == digest ==> s.d.cursor.Some?
  {
    hide StoreInvariant, StateOf, Timely, DigestAt, ValidDigest;
    StateOfStore(o, s);
    CursorDigestKnown(o, s);
    EmptyIsNoDigest(digest);
    NoRowNoDigest(o, s);
  }

  lemma NoRowNoDigest(o: Origin, s: System)
    requires StoreInvariant(o, s)
    ensures s.d.cursor.None? ==> DigestAt(o, s.log, CursorOf(o, s.log) - 1) == None
  {
    hide EvidenceIsFold, IsBlock, LogSequenced, ValidReduced, Observations;
  }

  lemma CommitAnswerUnmoved(o: Origin, s: System, q: Request, commit: Commit)
    requires StoreInvariant(o, s) && ClientInvariant(o, s, Prepared(q, commit)) && q.sequence == CursorOf(o, s.log)
    ensures ReplyTo(CommitSpec(s.d, commit).1) == CommitAnswer(o, s, q)
    ensures CommitAnswer(o, s, q).Refused? ==> CommitSpec(s.d, commit).0 == s.d
  {
    hide StoreInvariant, ClientInvariant, CommitSpec, StateOf, Timely, CompleteAt, DigestAt, ValidDigest, CommitIsCurrent, Retain, Landed,
         PairAgrees, CursorOf, LogSequenced, Accepts;
    PreparedSays(o, s, q, commit);
    CurrentAnswer(s.d, commit);
    StateOfStore(o, s);
    StateOfStoreHere(o, s);
    CommitLandsExactly(o, s, q, commit);
    WrittenComplete(o, s, q, commit);
  }

  lemma CommitAnswerMoved(o: Origin, s: System, q: Request, commit: Commit)
    requires StoreInvariant(o, s) && ClientInvariant(o, s, Prepared(q, commit)) && q.sequence < CursorOf(o, s.log)
    ensures ReplyTo(CommitSpec(s.d, commit).1) == CommitAnswer(o, s, q)
    ensures CommitSpec(s.d, commit).0 == s.d
  {
    hide StoreInvariant, ClientInvariant, CommitSpec, StateOf, Timely, CompleteAt, DigestAt, ValidDigest, CommitIsCurrent, PairAgrees, CursorOf,
         IsBlock, Observations, EvidenceIsFold, LogSequenced;
    PreparedSays(o, s, q, commit);
    OriginSays(o, s);
    BlockIsNotCorrupt(s.d.retained, o.start.aggregate.recordCount + 1, Observations(o.start, s.log));
    StateOfStore(o, s);
    StateOfStoreHere(o, s);
    MovedAnswer(s.d, commit, CursorOf(o, s.log));
    if StateOf(s.d).Ok? && ValidDigest(q.digest) {
      StateDigestIs(o, s, q.digest);
      StateCompleteIs(o, s);
    }
  }

  /** The answer of every commit, and that a refused or replayed one changes no row. */
  lemma CommitAnswered(o: Origin, s: System, q: Request, commit: Commit)
    requires StoreInvariant(o, s) && ClientInvariant(o, s, Prepared(q, commit))
    ensures q.sequence <= CursorOf(o, s.log) && ReplyTo(CommitSpec(s.d, commit).1) == CommitAnswer(o, s, q)
    ensures CommitAnswer(o, s, q).Refused? || CommitAnswer(o, s, q).replayed ==> CommitSpec(s.d, commit).0 == s.d
  {
    hide *;
    PreparedSays(o, s, q, commit);
    if q.sequence == CursorOf(o, s.log) {
      CommitAnswerUnmoved(o, s, q, commit);
      AppliedThere(o, s, q);
    } else {
      CommitAnswerMoved(o, s, q, commit);
    }
  }

  lemma AppliedThere(o: Origin, s: System, q: Request)
    requires q.sequence == CursorOf(o, s.log)
    ensures CommitAnswer(o, s, q).Success? ==> !CommitAnswer(o, s, q).replayed
  {
    hide CompleteAt, Timely, ValidDigest, DigestAt;
  }

  /** A commit that does not write changes no row. It reports success if and only if it finds the cursor one past its sequence
      with its digest and the stored evidence reads back; the log then holds its digest at its sequence, and the
      completeness reported is that sequence's own. */
  lemma CommitElsewise(o: Origin, s: System, q: Request, commit: Commit)
    requires StoreInvariant(o, s) && ClientInvariant(o, s, Prepared(q, commit)) && !Accepts(s.d, Prepared(q, commit))
    ensures CommitSpec(s.d, commit).0 == s.d
    ensures CommitSpec(s.d, commit).1.Ok? ==>
              var reply := ReplyTo(CommitSpec(s.d, commit).1); SaysAccepted(o, s.log, q, reply) && SaysRight(o, s.log, q, reply)
    ensures CommitSpec(s.d, commit).1.Ok? <==>
            q.sequence + 1 == CursorOf(o, s.log) && DigestAt(o, s.log, q.sequence) == Some(q.digest) && Timely(o, s.log)
  {
    hide *;
    PreparedSays(o, s, q, commit);
    CommitAnswered(o, s, q, commit);
    AcceptsSays(s.d, q, commit);
    OriginSays(o, s);
    KnownDigestIsValid(o, s, q.sequence);
    ElsewiseAnswer(o, s, q, CommitSpec(s.d, commit).1);
  }

  lemma KnownDigestIsValid(o: Origin, s: System, sequence: nat)
    requires StoreInvariant(o, s)
    ensures DigestAt(o, s.log, sequence).Some? ==> ValidDigest(DigestAt(o, s.log, sequence).value)
    ensures DigestAt(o, s.log, sequence).Some? ==> CursorOf(o, s.log) <= MAX_UINT64 && sequence < CursorOf(o, s.log)
  {
    hide EvidenceIsFold, IsBlock, ValidReduced, ValidDigest, Observations;
  }

  lemma ElsewiseAnswer(o: Origin, s: System, q: Request, r: Result<CommitResult, IngestError>)
    requires q.sequence <= CursorOf(o, s.log) && ReplyTo(r) == CommitAnswer(o, s, q)
    requires r.Ok? ==> r.value.alreadyCommitted
    requires DigestAt(o, s.log, q.sequence).Some? ==> ValidDigest(DigestAt(o, s.log, q.sequence).value) && CursorOf(o, s.log) <= MAX_UINT64
    ensures CommitAnswer(o, s, q).Refused? || CommitAnswer(o, s, q).replayed
    ensures r.Ok? ==> SaysAccepted(o, s.log, q, ReplyTo(r)) && SaysRight(o, s.log, q, ReplyTo(r))
    ensures r.Ok? <==> q.sequence + 1 == CursorOf(o, s.log) && DigestAt(o, s.log, q.sequence) == Some(q.digest) && Timely(o, s.log)
  {
    hide CompleteAt, ValidDigest, Timely, DigestAt, CursorOf;
  }

  lemma CursorDigestKnown(o: Origin, s: System)
    requires StoreInvariant(o, s)
    ensures s.d.cursor.Some? ==> DigestAt(o, s.log, CursorOf(o, s.log) - 1) == Some(s.d.cursor.value.digest)
                                 && s.d.cursor.value.next == CursorOf(o, s.log) && ValidDigest(s.d.cursor.value.digest)
  {
    hide EvidenceIsFold, IsBlock, ValidOrigin, LogSequenced, RowAfter, ValidDigest, DigestAt;
    RowKnown(o, s.log, |s.log|, s.d.cursor);
  }

  /** The completeness stored is that of the last accepted sequence. */
  lemma StateCompleteIs(o: Origin, s: System)
    requires StoreInvariant(o, s)
    ensures StateOf(s.d).Ok? && s.d.cursor.Some? ==>
              (StateOf(s.d).value.behaviorComplete <==> CompleteAt(o, s.log, CursorOf(o, s.log) - 1))
  {
    hide StoreInvariant, StoredOutcome, CompleteAt, ValidDigest, After, Timely, FoldLog, StateFrom, EvidenceIsFold, LogSequenced, IsBlock,
         SortedEntries, Observations, DigestAt, ValidOrigin;
    OriginSays(o, s);
    FoldSays(o, s);
    EvidenceCount(o, s);
    StoredOutcomeHere(o, s);
    StoredIsAfter(o, s);
    CompleteIs(o, s.log, |s.log|);
    CursorDigestKnown(o, s);
    StateUnfolds(s.d, CursorOf(o, s.log));
    StateErrs(s.d);
  }

  lemma StateErrs(d: Durable)
    ensures StoredOutcome(d).Err? ==> StateOf(d).Err?
  {
    hide StoredOutcome, ValidDigest;
  }

  lemma CursorIsPast(o: Origin, log: seq<Request>)
    ensures o.start.aggregate.recordCount + 1 <= CursorOf(o, log)
  {
  }

  lemma EmptyIsNoDigest(d: string)
    ensures ValidDigest(d) ==> d != ""
  {
  }

  // ---- Every step keeps the store invariant -------------------------------------------------------------------

  lemma AcceptedKeepsEvidence(o: Origin, s: System, t: System, q: Request, commit: Commit)
    requires StoreInvariant(o, s) && CommitIsCurrent(o, s.log, q, commit)
    requires t.log == s.log + [q] && t.d.evidence == Some(StoredEvidence(commit.aggregate, commit.snapshot)) && Timely(o, s.log)
    ensures EvidenceIsFold(o, t)
  {
    hide ValidReduced, IsBlock, Reduce, ValidDigest, LogSequenced, CursorIsLog, SnapshotOf, ObservationFor, Timely;
    assert t.log[..|t.log| - 1] == s.log;
    FoldLogSnoc(o.start, s.log, q);
  }

  lemma AcceptedKeepsSequences(o: Origin, log: seq<Request>, q: Request)
    requires LogSequenced(o, log) && q.sequence == CursorOf(o, log) && ValidDigest(q.digest)
    ensures LogSequenced(o, log + [q])
  {
    hide ValidDigest;
  }

  lemma AcceptedKeepsCursor(o: Origin, s: System, t: System, q: Request)
    requires q.sequence == CursorOf(o, s.log) < MAX_UINT64 && t.log == s.log + [q]
    requires t.d.cursor == Some(Cursor(q.sequence + 1, q.digest))
    ensures CursorIsLog(o, t)
  {
  }

  lemma AcceptedKeepsStore(o: Origin, s: System, t: System, q: Request, commit: Commit)
    requires StoreInvariant(o, s) && ClientInvariant(o, s, Prepared(q, commit)) && Accepts(s.d, Prepared(q, commit))
    requires t.log == s.log + [q] && t.d == CommitSpec(s.d, commit).0
    ensures StoreInvariant(o, t)
  {
    hide *;
    PreparedSays(o, s, q, commit);
    CommitLandsExactly(o, s, q, commit);
    LandedRows(s.d, commit);
    OriginSays(o, s);
    CurrentCommitRetains(o, s, q, commit);
    AcceptedKeepsEvidence(o, s, t, q, commit);
    AcceptedKeepsSequences(o, s.log, q);
    AcceptedKeepsCursor(o, s, t, q);
    StoreInvariantFrom(o, t);
  }

  lemma LandedRows(d: Durable, c: Commit)
    requires Writes(d, c)
    ensures c.sequence < MAX_UINT64 && Retain(d.retained, c.observation).Some?
    ensures var after := CommitSpec(d, c).0;
            && after.run == d.run && after.cursor == Some(Cursor(c.sequence + 1, c.digest))
            && after.evidence == Some(StoredEvidence(c.aggregate, c.snapshot))
            && after.retained == Retain(d.retained, c.observation).value
  {
    hide CommitSpec, Retain;
  }

  lemma OriginSays(o: Origin, s: System)
    requires StoreInvariant(o, s)
    ensures ValidOrigin(o) && s.d.run.environment == o.start.aggregate.environment && LogSequenced(o, s.log)
    ensures EvidenceIsFold(o, s)
    ensures IsBlock(s.d.retained, o.start.aggregate.recordCount + 1, Observations(o.start, s.log))
  {
    hide ValidReduced, LogSequenced, EvidenceIsFold, CursorIsLog, IsBlock;
  }

  lemma StoreInvariantFrom(o: Origin, s: System)
    requires ValidOrigin(o) && s.d.run.environment == o.start.aggregate.environment
    requires LogSequenced(o, s.log) && EvidenceIsFold(o, s) && CursorIsLog(o, s)
    requires IsBlock(s.d.retained, o.start.aggregate.recordCount + 1, Observations(o.start, s.log))
    ensures StoreInvariant(o, s)
  {
    hide ValidOrigin, LogSequenced, EvidenceIsFold, CursorIsLog, IsBlock, CursorOf, Observations;
  }

  // ---- Every step keeps every client's invariant --------------------------------------------------------------

  /** A record accepted from one client leaves what every other client may rely on true. */
  lemma AcceptedKeepsOthers(o: Origin, s: System, t: System, q: Request, c: Client)
    requires ClientInvariant(o, s, c) && t.log == s.log + [q]
    ensures ClientInvariant(o, t, c)
  {
    hide CommitIsCurrent, ReadAt, RowAfter, SaysAccepted;
    match c
    case Submitted(_) =>
    case RunSeen(_, run) =>
    case ReadingCursor(_, run, row, seen, at) =>
      ReadStable(o, s.log, q, seen, at, at.row);
      RowStable(o, s.log, q, at.row, row);
    case ReadingEvidence(_, run, next, seen, at) =>
      ReadStable(o, s.log, q, seen, at, next - o.start.aggregate.recordCount - 1);
    case Prepared(_, _) =>
    case Answered(r, reply) =>
      if reply.Success? {
        AcceptedStable(o, s.log, q, r, reply);
      }
  }

  /** A client's invariant reads nothing of the run but the history of its requests. */
  lemma SameLogKeeps(o: Origin, s: System, t: System, c: Client)
    requires ClientInvariant(o, s, c) && t.log == s.log
    ensures ClientInvariant(o, t, c)
  {
    hide CommitIsCurrent, ReadAt, RowAfter, SaysAccepted;
  }

  lemma RunReadKeeps(o: Origin, s: System, q: Request)
    requires StoreInvariant(o, s)
    ensures ClientInvariant(o, s, CheckRun(q, s.d.run))
  {
    hide LogSequenced, EvidenceIsFold, CursorIsLog, IsBlock, ValidOrigin;
  }

  lemma CursorReadKeeps(o: Origin, s: System, q: Request, run: EvaluationRun)
    requires StoreInvariant(o, s) && run.environment == o.start.aggregate.environment
    ensures ClientInvariant(o, s, ReadingCursor(q, run, s.d.cursor, NOTHING_READ, UNMARKED.(row := |s.log|)))
  {
    hide StoreInvariant, RowAfter;
    CursorSays(o, s);
  }

  /** The next statement returns what is stored now, and is marked so. */
  lemma NextStatementRead(o: Origin, s: System, seen: Reads, at: Marks, first: nat)
    requires EvidenceIsFold(o, s) && ReadAt(o, s.log, seen, at, first) && first <= |s.log| && !Finished(seen)
    ensures ReadAt(o, s.log, ReadNext(seen, s.d), Marked(at, seen, |s.log|), first)
  {
    hide EvidenceIsFold, After, SnapshotOf, HeaderOf;
    StoredIsAfter(o, s);
  }

  lemma CursorReaderSays(o: Origin, s: System, q: Request, run: EvaluationRun, row: Option<Cursor>, seen: Reads, at: Marks)
    ensures ClientInvariant(o, s, ReadingCursor(q, run, row, seen, at)) <==>
            && run.environment == o.start.aggregate.environment && at.row <= |s.log| && RowAfter(o, s.log, at.row, row)
            && ReadAt(o, s.log, seen, at, at.row)
  {
    hide RowAfter, ReadAt;
  }

  lemma EvidenceReaderSays(o: Origin, s: System, q: Request, run: EvaluationRun, next: U64, seen: Reads, at: Marks)
    ensures ClientInvariant(o, s, ReadingEvidence(q, run, next, seen, at)) <==>
            && run.environment == o.start.aggregate.environment && q.sequence == next
            && o.start.aggregate.recordCount < next <= CursorOf(o, s.log)
            && ReadAt(o, s.log, seen, at, next - o.start.aggregate.recordCount - 1)
  {
    hide ReadAt;
  }

  lemma MarkedRow(at: Marks, seen: Reads, now: nat)
    ensures Marked(at, seen, now).row == at.row
  {
  }

  lemma StatementKeepsCursorReader(o: Origin, s: System, q: Request, run: EvaluationRun, row: Option<Cursor>, seen: Reads, at: Marks)
    requires StoreInvariant(o, s) && ClientInvariant(o, s, ReadingCursor(q, run, row, seen, at)) && !Finished(seen)
    ensures ClientInvariant(o, s, ReadingCursor(q, run, row, ReadNext(seen, s.d), Marked(at, seen, |s.log|)))
  {
    hide *;
    OriginSays(o, s);
    CursorReaderSays(o, s, q, run, row, seen, at);
    NextStatementRead(o, s, seen, at, at.row);
    MarkedRow(at, seen, |s.log|);
    CursorReaderSays(o, s, q, run, row, ReadNext(seen, s.d), Marked(at, seen, |s.log|));
  }

  lemma StatementKeepsEvidenceReader(o: Origin, s: System, q: Request, run: EvaluationRun, next: U64, seen: Reads, at: Marks)
    requires StoreInvariant(o, s) && ClientInvariant(o, s, ReadingEvidence(q, run, next, seen, at)) && !Finished(seen)
    ensures ClientInvariant(o, s, ReadingEvidence(q, run, next, ReadNext(seen, s.d), Marked(at, seen, |s.log|)))
  {
    hide *;
    OriginSays(o, s);
    EvidenceReaderSays(o, s, q, run, next, seen, at);
    NextCountsLog(o, s.log, next);
    NextStatementRead(o, s, seen, at, next - o.start.aggregate.recordCount - 1);
    EvidenceReaderSays(o, s, q, run, next, ReadNext(seen, s.d), Marked(at, seen, |s.log|));
  }

  lemma NextCountsLog(o: Origin, log: seq<Request>, next: nat)
    ensures next <= CursorOf(o, log) <==> next - o.start.aggregate.recordCount - 1 <= |log|
    ensures next == CursorOf(o, log) <==> next - o.start.aggregate.recordCount - 1 == |log|
  {
  }

  lemma AfterCounts(o: Origin, log: seq<Request>, n: nat)
    requires ValidOrigin(o) && FoldLog(o.start, log).Ok? && n <= |log|
    ensures ValidReduced(After(o, log, n)) && FoldLog(o.start, log[..n]) == Ok(After(o, log, n))
    ensures After(o, log, n).aggregate.recordCount == o.start.aggregate.recordCount + n
    ensures After(o, log, n).aggregate.environment == o.start.aggregate.environment
  {
    hide FoldLog, ValidOrigin, ValidReduced;
    FoldPrefix(o.start, log, n);
    FoldFacts(o, log[..n]);
  }

  /** The cursor a client derives was the run's cursor when it read the aggregate, and a digest it finds beside one is the
      accepted request's. */
  lemma DerivedStateKnown(o: Origin, log: seq<Request>, row: Option<Cursor>, seen: Reads, at: Marks, environment: string)
    requires ValidOrigin(o) && LogSequenced(o, log) && FoldLog(o.start, log).Ok?
    requires at.row <= |log| && RowAfter(o, log, at.row, row) && ReadAt(o, log, seen, at, at.row) && Finished(seen)
    ensures var st := StateFrom(row, EvidenceRead(seen, environment));
            st.Ok? ==> && o.start.aggregate.recordCount < st.value.next <= CursorOf(o, log) && st.value.recordCount == st.value.next - 1
                       && (st.value.digest != "" ==> DigestAt(o, log, st.value.next - 1) == Some(st.value.digest))
                       && (st.value.digest != "" && st.value.behaviorComplete ==> CompleteAt(o, log, st.value.next - 1))
  {
    hide Trusted, ValidDigest, DigestAt, CompleteAt, RowAfter, LogSequenced, After, FoldLog, SortedEntries, ValidOrigin, ValidReduced, StateFrom,
         EvidenceRead;
    RowKnown(o, log, at.row, row);
    StateFromSays(row, EvidenceRead(seen, environment));
    EvidenceReadSays(seen, environment);
    if seen.aggregate.Some? && seen.header.Some? {
      AfterCounts(o, log, at.aggregate);
      if After(o, log, at.header).collector.complete {
        CompleteEarlier(o, log, at.aggregate, at.header);
      }
    }
    if !Holds(o, at.hasAggregate) {
      UntouchedIsTimely(o, log[..at.hasAggregate]);
    }
  }

  lemma StateFromSays(row: Option<Cursor>, outcome: Result<Option<StoredEvidence>, IngestError>)
    ensures var st := StateFrom(row, outcome);
            st.Ok? ==>
              && outcome.Ok? && st.value.digest == (if row.Some? then row.value.digest else "")
              && st.value.recordCount == st.value.next - 1
              && (row.Some? ==> outcome.value.Some? && row.value.next == st.value.next)
              && (outcome.value.None? ==> st.value.next == 1)
              && (outcome.value.Some? ==> && st.value.recordCount == outcome.value.value.aggregate.recordCount
                                          && st.value.behaviorComplete == outcome.value.value.snapshot.complete)
  {
    hide ValidDigest;
  }

  lemma EvidenceReadSays(seen: Reads, environment: string)
    requires Finished(seen)
    ensures var outcome := EvidenceRead(seen, environment);
            outcome.Ok? ==>
              && (outcome.value.None? ==> !seen.hasAggregate.value)
              && (outcome.value.Some? ==>
                    && seen.aggregate.Some? && seen.header.Some? && outcome.value.value.aggregate == seen.aggregate.value
                    && outcome.value.value.snapshot.complete == seen.header.value.complete)
  {
    hide Trusted;
  }

  lemma AdmitKeeps(o: Origin, s: System, q: Request, run: EvaluationRun, row: Option<Cursor>, seen: Reads, at: Marks)
    requires StoreInvariant(o, s) && ClientInvariant(o, s, ReadingCursor(q, run, row, seen, at)) && Finished(seen)
    ensures ClientInvariant(o, s, Admit(q, run, StateFrom(row, EvidenceRead(seen, run.environment))))
  {
    hide *;
    OriginSays(o, s);
    FoldSays(o, s);
    CursorReaderSays(o, s, q, run, row, seen, at);
    DerivedStateKnown(o, s.log, row, seen, at, run.environment);
    AdmittedKeeps(o, s, q, run, StateFrom(row, EvidenceRead(seen, run.environment)));
  }

  lemma AdmittedKeeps(o: Origin, s: System, q: Request, run: EvaluationRun, state: Result<IngestState, IngestError>)
    requires run.environment == o.start.aggregate.environment
    requires state.Ok? ==>
      && o.start.aggregate.recordCount < state.value.next <= CursorOf(o, s.log) && state.value.recordCount == state.value.next - 1
      && (state.value.digest != "" ==> DigestAt(o, s.log, state.value.next - 1) == Some(state.value.digest))
      && (state.value.digest != "" && state.value.behaviorComplete ==> CompleteAt(o, s.log, state.value.next - 1))
    ensures ClientInvariant(o, s, Admit(q, run, state))
  {
    hide DigestAt, CompleteAt, ReadAt, ValidFacts, CursorOf;
    NothingReadYet(o, s.log);
  }

  lemma NothingReadYet(o: Origin, log: seq<Request>)
    ensures forall first :: ReadAt(o, log, NOTHING_READ, UNMARKED, first)
  {
  }

  lemma FoldSays(o: Origin, s: System)
    requires EvidenceIsFold(o, s)
    ensures FoldLog(o.start, s.log).Ok? && FedByTimely(o, s.log)
  {
    hide FoldLog, FedByTimely, EvidenceOf;
  }

  /** What has been read is what is stored. */
  predicate ReadsAgree(r: Reads, d: Durable) {
    && (r.hasAggregate.Some? ==> r.hasAggregate.value == d.evidence.Some?)
    && (r.hasSnapshot.Some? ==> r.hasSnapshot.value == d.evidence.Some?)
    && (r.aggregate.Some? ==> d.evidence.Some? && r.aggregate.value == d.evidence.value.aggregate)
    && (r.header.Some? ==> d.evidence.Some? && r.header.value == HeaderOf(d.evidence.value.snapshot))
    && (r.entries.Some? ==> d.evidence.Some? && r.entries.value == d.evidence.value.snapshot.entries)
  }

  /** Statements that all ran since the last request was accepted returned what is stored. */
  lemma LateReadsAgree(o: Origin, s: System, seen: Reads, at: Marks)
    requires EvidenceIsFold(o, s) && ReadAt(o, s.log, seen, at, |s.log|)
    ensures ReadsAgree(seen, s.d)
  {
    hide EvidenceIsFold, After, SnapshotOf, HeaderOf, FoldLog;
    StoredIsAfter(o, s);
    EvidenceSays(After(o, s.log, |s.log|));
  }

  lemma EvidenceSays(x: Reduced)
    ensures EvidenceOf(x).aggregate == x.aggregate && EvidenceOf(x).snapshot == SnapshotOf(x.collector)
  {
    hide SnapshotOf;
  }

  lemma AgreeingReadsAreStored(seen: Reads, d: Durable, environment: string)
    requires Finished(seen) && ReadsAgree(seen, d)
    ensures EvidenceRead(seen, environment) == EvidenceRead(ReadAll(d), environment)
  {
    hide Trusted;
  }

  lemma CurrentIsFold(o: Origin, s: System)
    requires StoreInvariant(o, s)
    ensures FoldLog(o.start, s.log).Ok?
    ensures Current(s.d.evidence, o.start.aggregate.environment) == Ok(FoldLog(o.start, s.log).value)
  {
    hide IsBlock, LogSequenced, CursorIsLog, SoundAggregate, IdentitiesValid, CountsAgree, SnapshotOf, Restored, EntriesValid, FedByTimely;
    FoldFacts(o, s.log);
    RestoreInvertsSnapshot(FoldLog(o.start, s.log).value.collector);
  }

  lemma RestoredAgrees(e: StoredEvidence, environment: string)
    requires PairAgrees(e.aggregate, e.snapshot)
    ensures var x := Current(Some(e), environment); x.Ok? ==> CountsAgree(x.value)
  {
    hide Indexed;
  }

  lemma CommitAgrees(x: Reduced, q: Request, next: U64)
    requires CountsAgree(x)
    ensures var c := Prepare(q, next, Ok(x)); c.Prepared? ==> PairAgrees(c.commit.aggregate, c.commit.snapshot)
  {
    hide Reduce, SnapshotOf, PairAgrees, CountsAgree, ObservationFor, Observable;
    if Reduce(x, q.record, q.facts).Ok? {
      ReduceKeepsCounts(x, q.record, q.facts);
      StoredPairAgrees(Reduce(x, q.record, q.facts).value);
    }
  }

  /** Whatever moments it was read at, evidence that passes yields a commit whose halves agree. */
  lemma GatheredAgrees(q: Request, next: U64, seen: Reads, environment: string)
    requires Finished(seen)
    ensures var c := Gathered(q, next, EvidenceRead(seen, environment), environment);
            c.Prepared? ==> PairAgrees(c.commit.aggregate, c.commit.snapshot)
  {
    hide ValidAggregate, RestoredSnapshotValid, PairAgrees, CountsAgree, Prepare, Current, Assembled;
    EmptyCounts(environment);
    CommitAgrees(Empty(environment), q, next);
    EmptyIsCurrent(environment);
    if EvidenceRead(seen, environment).Ok? && EvidenceRead(seen, environment).value.Some? {
      var e := EvidenceRead(seen, environment).value.value;
      RestoredAgrees(e, environment);
      if Current(Some(e), environment).Ok? {
        CommitAgrees(Current(Some(e), environment).value, q, next);
      } else {
        ErrorPreparesNothing(q, next, Current(Some(e), environment).error);
      }
    }
  }

  lemma EmptyIsCurrent(environment: string)
    ensures Current(None, environment) == Ok(Empty(environment))
  {
  }

  lemma ErrorPreparesNothing(q: Request, next: U64, e: IngestError)
    ensures Prepare(q, next, Err(e)) == Answered(q, Refused(e))
  {
  }

  /** Evidence read while the cursor stood still is the stored evidence, so the commit prepared from it is current. */
  lemma GatherKeeps(o: Origin, s: System, q: Request, run: EvaluationRun, next: U64, seen: Reads, at: Marks)
    requires StoreInvariant(o, s) && ClientInvariant(o, s, ReadingEvidence(q, run, next, seen, at)) && Finished(seen)
    ensures ClientInvariant(o, s, Gathered(q, next, EvidenceRead(seen, run.environment), run.environment))
  {
    hide StoreInvariant, ReadAt, EvidenceRead, StoredOutcome, Finished, Current, Reduce, SnapshotOf, Timely, CursorOf,
         EvidenceIsFold, LogSequenced, IsBlock, FoldLog, ReadsAgree, ReadAll, PairAgrees;
    GatheredAgrees(q, next, seen, run.environment);
    if next == CursorOf(o, s.log) {
      OriginSays(o, s);
      NextCountsLog(o, s.log, next);
      LateReadsAgree(o, s, seen, at);
      AgreeingReadsAreStored(seen, s.d, run.environment);
      StoredOutcomeHere(o, s);
      OutcomeUnfolds(s.d);
      CurrentIsFold(o, s);
    }
  }

  lemma StoredOutcomeHere(o: Origin, s: System)
    requires StoreInvariant(o, s)
    ensures StoredOutcome(s.d) == if Timely(o, s.log) then Ok(s.d.evidence) else Err(ErrStoreCorrupt)
    ensures s.d.run.environment == o.start.aggregate.environment
  {
    hide *;
    OriginSays(o, s);
    StoredReadsBack(o, s);
  }

  lemma OutcomeUnfolds(d: Durable)
    ensures StoredOutcome(d) == EvidenceRead(ReadAll(d), d.run.environment)
  {
    hide EvidenceRead, ReadAll;
  }

  lemma CommitKeepsOwn(o: Origin, s: System, t: System, q: Request, commit: Commit)
    requires StoreInvariant(o, s) && ClientInvariant(o, s, Prepared(q, commit))
    requires t.d == CommitSpec(s.d, commit).0 && t.log == if Accepts(s.d, Prepared(q, commit)) then s.log + [q] else s.log
    ensures ClientInvariant(o, t, Answered(q, ReplyTo(CommitSpec(s.d, commit).1)))
    ensures CommitSpec(s.d, commit).1.Ok? ==> SaysRight(o, t.log, q, ReplyTo(CommitSpec(s.d, commit).1))
  {
    hide *;
    PreparedSays(o, s, q, commit);
    if Accepts(s.d, Prepared(q, commit)) {
      CommitLandsExactly(o, s, q, commit);
      DigestStable(o, s.log, q, q.sequence);
      WrittenComplete(o, s, q, commit);
      WrittenReply(o, s.d, t.log, q, commit);
    } else {
      CommitElsewise(o, s, q, commit);
    }
    AnswerHolds(o, t, q, ReplyTo(CommitSpec(s.d, commit).1), CommitSpec(s.d, commit).1);
  }

  lemma WrittenReply(o: Origin, d: Durable, log: seq<Request>, q: Request, commit: Commit)
    requires Writes(d, commit) && commit.sequence == q.sequence && DigestAt(o, log, q.sequence) == Some(q.digest)
    requires commit.snapshot.complete <==> CompleteAt(o, log, q.sequence)
    ensures SaysAccepted(o, log, q, ReplyTo(CommitSpec(d, commit).1)) && SaysRight(o, log, q, ReplyTo(CommitSpec(d, commit).1))
  {
    hide CommitSpec, Retain, DigestAt, Landed, CompleteAt;
  }

  /** An applied record's commit says whether the evidence is complete with it. */
  lemma WrittenComplete(o: Origin, s: System, q: Request, commit: Commit)
    requires CommitIsCurrent(o, s.log, q, commit) && q.sequence == CursorOf(o, s.log)
    ensures commit.snapshot.complete <==> CompleteAt(o, s.log + [q], q.sequence)
  {
    hide Reduce, ObservationFor, SortedEntries;
    FoldLogSnoc(o.start, s.log, q);
    assert (s.log + [q])[..|s.log| + 1] == s.log + [q];
  }

  lemma AnswerHolds(o: Origin, t: System, q: Request, reply: Reply, r: Result<CommitResult, IngestError>)
    requires reply == ReplyTo(r) && (r.Ok? ==> SaysAccepted(o, t.log, q, reply))
    ensures ClientInvariant(o, t, Answered(q, reply))
  {
    hide SaysAccepted;
  }
}
