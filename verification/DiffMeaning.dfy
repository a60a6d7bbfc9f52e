/** What a comparison says of the two sides' operational evidence, and when it is made at all, over the entries of the two
    snapshots. */
module DiffMeaning {
  import opened Bounded
  import opened Ordering
  import opened Operational
  import opened BehaviorOperational
  import opened Aggregate
  import opened Collector
  import opened Evidence
  import opened Conservation
  import opened Counting
  import opened Retention
  import opened Diff
  import opened DiffProperties

  // ---- What a list of entries holds ---------------------------------------------------------------------------

  /** Some observation of some entry measured a duration. */
  ghost predicate SomeMeasured(entries: seq<BehaviorEntry>) {
    exists k :: 0 <= k < |entries| && entries[k].operational.durations.count > 0
  }

  /** Some observation of some entry stated a span status or an HTTP status code. */
  ghost predicate SomeStated(entries: seq<BehaviorEntry>) {
    exists k :: 0 <= k < |entries|
      && (entries[k].operational.spanStatus.unavailable < entries[k].observations
          || entries[k].operational.httpStatus.unavailable < entries[k].observations)
  }

  /** Some observation of some entry reported tokens. */
  ghost predicate SomeReported(entries: seq<BehaviorEntry>) {
    exists k :: 0 <= k < |entries| && entries[k].operational.tokens.observed > 0
  }

  function DurationTotal(entries: seq<BehaviorEntry>): nat {
    if entries == [] then 0 else DurationTotal(entries[..|entries| - 1]) + entries[|entries| - 1].operational.durations.sum
  }

  lemma SomeSnoc(init: seq<BehaviorEntry>, e: BehaviorEntry)
    ensures SomeMeasured(init + [e]) <==> SomeMeasured(init) || e.operational.durations.count > 0
    ensures SomeReported(init + [e]) <==> SomeReported(init) || e.operational.tokens.observed > 0
    ensures SomeStated(init + [e]) <==>
            SomeStated(init) || e.operational.spanStatus.unavailable < e.observations || e.operational.httpStatus.unavailable < e.observations
  {
    var all := init + [e];
    assert all[|init|] == e && forall k | 0 <= k < |init| :: all[k] == init[k];
    if SomeMeasured(init) {
      var k :| 0 <= k < |init| && init[k].operational.durations.count > 0;
      assert all[k].operational.durations.count > 0;
    }
    if SomeReported(init) {
      var k :| 0 <= k < |init| && init[k].operational.tokens.observed > 0;
      assert all[k].operational.tokens.observed > 0;
    }
    if SomeStated(init) {
      var k :| 0 <= k < |init| && (init[k].operational.spanStatus.unavailable < init[k].observations
                                   || init[k].operational.httpStatus.unavailable < init[k].observations);
      assert all[k] == init[k];
    }
  }

  /** The parts of a sum that say whether there is anything to compare. */
  ghost predicate SumTells(s: OperationalSummary, entries: seq<BehaviorEntry>) {
    && (s.durations.count > 0 <==> SomeMeasured(entries)) && (s.tokens.observed > 0 <==> SomeReported(entries))
    && s.spanStatus.unavailable <= EntryTotal(entries) && s.httpStatus.unavailable <= EntryTotal(entries)
    && (s.spanStatus.unavailable == EntryTotal(entries) && s.httpStatus.unavailable == EntryTotal(entries) <==> !SomeStated(entries))
  }

  lemma AddTells(s: OperationalSummary, init: seq<BehaviorEntry>, e: BehaviorEntry)
    requires SumTells(s, init) && ValidEntry(e) && Add(s, e.operational).Some?
    ensures SumTells(Add(s, e.operational).value, init + [e])
  {
    hide ValidBuckets, ValidStatistics, AddBuckets, SomeMeasured, SomeReported, SomeStated;
    SomeSnoc(init, e);
    assert (init + [e])[..|init|] == init;
  }

  lemma NothingTells(none: seq<BehaviorEntry>)
    requires |none| == 0
    ensures SumTells(EMPTY, none)
  {
  }

  lemma {:induction false} EntriesTell(entries: seq<BehaviorEntry>)
    requires EntriesCounted(entries) && AddEntries(entries).Some?
    ensures SumTells(AddEntries(entries).value, entries)
  {
    hide SumTells, Add, ValidEntry;
    if entries == [] {
      NothingTells(entries);
    } else {
      var init, e := entries[..|entries| - 1], entries[|entries| - 1];
      assert entries == init + [e] && ValidEntry(entries[|entries| - 1]);
      EntriesTell(init);
      AddTells(AddEntries(init).value, init, e);
    }
  }

  // ---- When a list adds up ------------------------------------------------------------------------------------

  lemma {:induction false} SumHasTiming(entries: seq<BehaviorEntry>)
    requires AddEntries(entries).Some?
    ensures ListTiming(entries).Some?
    ensures ListTiming(entries) == Some(Timing(AddEntries(entries).value.durations, AddEntries(entries).value.spanStatus))
  {
    hide AddBuckets, AddHttp, AddTokens, AddDurations, AddStatuses;
    if entries != [] {
      SumHasTiming(entries[..|entries| - 1]);
    }
  }

  /** What the durations and statuses of counted entries come to. */
  ghost predicate TimingTells(t: Option<Timing>, entries: seq<BehaviorEntry>) {
    && (t.Some? <==> DurationTotal(entries) <= MAX_UINT64)
    && (t.Some? ==>
          && t.value.durations.sum == DurationTotal(entries) && t.value.durations.count + t.value.durations.unobserved == EntryTotal(entries)
          && t.value.statuses.unavailable + t.value.statuses.unset + t.value.statuses.ok + t.value.statuses.error == EntryTotal(entries))
  }

  lemma TimingNext(t: Timing, init: seq<BehaviorEntry>, e: BehaviorEntry)
    requires TimingTells(Some(t), init) && ValidEntry(e) && EntryTotal(init + [e]) <= MAX_UINT64
    ensures TimingTells(AddTiming(t, TimingOf(e)), init + [e])
  {
    hide ValidBuckets, ValidStatistics;
    assert (init + [e])[..|init|] == init;
  }

  lemma {:induction false} ListTimingTells(entries: seq<BehaviorEntry>)
    requires EntriesCounted(entries)
    ensures TimingTells(ListTiming(entries), entries)
  {
    hide ValidEntry, AddTiming;
    if entries != [] {
      var init, e := entries[..|entries| - 1], entries[|entries| - 1];
      assert entries == init + [e] && ValidEntry(entries[|entries| - 1]);
      ListTimingTells(init);
      if ListTiming(init).Some? {
        TimingNext(ListTiming(init).value, init, e);
      }
    }
  }

  /** Valid entries add up if and only if their durations and their three token totals fit 64 bits. */
  lemma AddsUpIff(entries: seq<BehaviorEntry>)
    requires EntriesCounted(entries)
    ensures AddEntries(entries).Some? <==> DurationTotal(entries) <= MAX_UINT64 && TokensFit(TokenTotals(entries))
    ensures AddEntries(entries).Some? ==> ValidSummary(AddEntries(entries).value, EntryTotal(entries))
  {
    hide EntriesCounted, AddEntries, ListTiming, TokenTotals, ValidSummary;
    ListTimingTells(entries);
    if AddEntries(entries).Some? {
      SumHasTiming(entries);
    }
    if ListTiming(entries).Some? {
      EntriesAddUp(entries);
    }
  }

  // ---- The comparison -----------------------------------------------------------------------------------------

  /** The verdict on one kind of evidence, from whether each side has any. */
  predicate Tells(u: Unavailability, reference: bool, candidate: bool) {
    && (u == Comparable <==> reference && candidate) && (u == ReferenceUnavailable <==> !reference && candidate)
    && (u == CandidateUnavailable <==> reference && !candidate) && (u == BothUnavailable <==> !reference && !candidate)
  }

  ghost predicate OperationalTold(op: OperationalComparison, r: seq<BehaviorEntry>, c: seq<BehaviorEntry>) {
    && Tells(op.latency, SomeMeasured(r), SomeMeasured(c))
    && Tells(op.errors, SomeStated(r), SomeStated(c))
    && Tells(op.tokens, SomeReported(r), SomeReported(c))
  }

  lemma EmptyPlus(entries: seq<BehaviorEntry>)
    requires EntriesCounted(entries)
    ensures Plus(Some(EMPTY), AddEntries(entries)) == AddEntries(entries)
  {
    hide AddEntries, Add, EntriesCounted;
    AddsUpIff(entries);
    if AddEntries(entries).Some? {
      ValidIsNormal(AddEntries(entries).value, EntryTotal(entries));
      AddIdentity(AddEntries(entries).value);
    }
  }

  lemma ValidIsNormal(s: OperationalSummary, n: nat)
    requires ValidSummary(s, n)
    ensures Normal(s)
  {
    hide ValidBuckets, ValidHttp, ValidTokens;
  }

  /** The errors of a valid sum are available exactly if some observation stated something. */
  lemma AvailableMeans(entries: seq<BehaviorEntry>)
    requires EntriesCounted(entries) && AddEntries(entries).Some?
    ensures var s := AddEntries(entries).value;
            && (LatencyAvailable(s) <==> SomeMeasured(entries)) && (ErrorsAvailable(s) <==> SomeStated(entries))
            && (TokensAvailable(s) <==> SomeReported(entries))
  {
    hide AddEntries, ErrorsAvailable, SomeMeasured, SomeStated, SomeReported, ValidSummary, ValidEntry;
    AddsUpIff(entries);
    EntriesTell(entries);
    ErrorsAvailableMeans(AddEntries(entries).value, EntryTotal(entries));
  }

  lemma ComparedParts(reference: BehaviorSnapshot, candidate: BehaviorSnapshot)
    requires Compared(reference, candidate).Ok?
    ensures var r, c := Plus(Some(EMPTY), AddEntries(reference.entries)), Plus(Some(EMPTY), AddEntries(candidate.entries));
            && r.Some? && c.Some?
            && Compared(reference, candidate).value.operational == CompareOperational(r.value, c.value)
  {
    hide Plus, AddEntries, Consistent, RawDeltas, SortDeltas, CountPresence, AddedIdentities, CompareOperational;
  }

  /** A comparison calls latency, errors and tokens comparable, or unavailable on the one side, the other or both, exactly by
      whether some entry of each side measured a duration, stated a status or reported tokens; and the sums it shows are the
      sums of that side's entries. */
  lemma OperationalIsTold(reference: BehaviorSnapshot, candidate: BehaviorSnapshot)
    requires EntriesCounted(reference.entries) && EntriesCounted(candidate.entries) && Compared(reference, candidate).Ok?
    ensures OperationalTold(Compared(reference, candidate).value.operational, reference.entries, candidate.entries)
    ensures AddEntries(reference.entries) == Some(Compared(reference, candidate).value.operational.reference)
    ensures AddEntries(candidate.entries) == Some(Compared(reference, candidate).value.operational.candidate)
  {
    hide Compared, AddEntries, SomeMeasured, SomeStated, SomeReported, EntriesCounted, LatencyAvailable, ErrorsAvailable, TokensAvailable, Add;
    ComparedParts(reference, candidate);
    EmptyPlus(reference.entries);
    EmptyPlus(candidate.entries);
    AvailableMeans(reference.entries);
    AvailableMeans(candidate.entries);
  }

  ghost predicate AddsUp(entries: seq<BehaviorEntry>) {
    DurationTotal(entries) <= MAX_UINT64 && TokensFit(TokenTotals(entries))
  }

  /** Across both snapshots a fingerprint names one behavior and a behavior has one fingerprint, pair by pair. */
  ghost predicate SameNames(r: seq<BehaviorEntry>, c: seq<BehaviorEntry>) {
    forall i, j | 0 <= i < |r| && 0 <= j < |c| :: r[i].fingerprintId == c[j].fingerprintId <==> r[i].behavior == c[j].behavior
  }

  lemma NamesAreConsistent(r: seq<BehaviorEntry>, c: seq<BehaviorEntry>)
    ensures SameNames(r, c) <==> Consistent(r, c)
  {
  }

  lemma DiffOfSays(reference: BehaviorSnapshot, candidate: BehaviorSnapshot, operational: OperationalComparison)
    ensures var d := DiffOf(reference, candidate, operational);
            && d.environment == reference.environment
            && d.referenceObservations == reference.observations && d.candidateObservations == candidate.observations
            && d.referenceDistinct == |reference.entries| && d.candidateDistinct == |candidate.entries|
  {
    hide RawDeltas, SortDeltas, CountPresence, AddedIdentities;
  }

  lemma ComparedCases(reference: BehaviorSnapshot, candidate: BehaviorSnapshot)
    ensures var d := Compared(reference, candidate);
            var r, c := Plus(Some(EMPTY), AddEntries(reference.entries)), Plus(Some(EMPTY), AddEntries(candidate.entries));
            if !reference.complete || !candidate.complete then d == Err(IncompleteSnapshot)
            else if reference.environment != candidate.environment then d == Err(EnvironmentDiffers)
            else if !Consistent(reference.entries, candidate.entries) then d == Err(IdentityConflict)
            else if r.None? || c.None? then d == Err(OperationalOverflow)
            else d == Ok(DiffOf(reference, candidate, CompareOperational(r.value, c.value)))
  {
    hide Plus, AddEntries, Consistent, DiffOf, CompareOperational;
  }

  /** A comparison is made if and only if both snapshots are complete and of one environment, identities agree across them, and
      each side's durations and tokens fit 64 bits; otherwise the first of these that fails is the refusal. */
  lemma ComparedIff(reference: BehaviorSnapshot, candidate: BehaviorSnapshot)
    requires EntriesCounted(reference.entries) && EntriesCounted(candidate.entries)
    ensures var r := Compared(reference, candidate);
            if !(reference.complete && candidate.complete) then r == Err(IncompleteSnapshot)
            else if reference.environment != candidate.environment then r == Err(EnvironmentDiffers)
            else if !SameNames(reference.entries, candidate.entries) then r == Err(IdentityConflict)
            else if !AddsUp(reference.entries) || !AddsUp(candidate.entries) then r == Err(OperationalOverflow)
            else
              && r.Ok? && r.value.environment == reference.environment
              && r.value.referenceObservations == reference.observations && r.value.candidateObservations == candidate.observations
              && r.value.referenceDistinct == |reference.entries| && r.value.candidateDistinct == |candidate.entries|
  {
    hide Plus, AddEntries, DiffOf, CompareOperational, EntriesCounted, DurationTotal, TokenTotals, Compared, SameNames, Consistent;
    AddsUpIff(reference.entries);
    AddsUpIff(candidate.entries);
    EmptyPlus(reference.entries);
    EmptyPlus(candidate.entries);
    NamesAreConsistent(reference.entries, candidate.entries);
    ComparedCases(reference, candidate);
    if AddEntries(reference.entries).Some? && AddEntries(candidate.entries).Some? {
      DiffOfSays(reference, candidate, CompareOperational(AddEntries(reference.entries).value, AddEntries(candidate.entries).value));
    }
  }

  /** Snapshots read back from storage meet what these results ask. */
  lemma RestoredIsCounted(s: BehaviorSnapshot, distinct: nat)
    requires RestoredSnapshotValid(s, distinct)
    ensures EntriesCounted(s.entries)
  {
    hide ValidEntry, IdentityFits, EntriesAscending, Indexed;
  }
}
