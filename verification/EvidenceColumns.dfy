/** platform/evidence_columns.go and the codec of platform/behavior_fidelity.go: how an entry's counters are stored as
    one comma-separated column each, and what the migrations backfill. */
module EvidenceColumns {
  import opened Bounded
  import opened Operational
  import opened BehaviorOperational
  import opened Fidelity
  import opened Codec

  const OPERATIONAL_COUNTERS: nat := 31
  const FIDELITY_COUNTERS: nat := 9

  /** The twenty counters stored after the buckets; the observed duration count is the bucket total and is not stored. */
  function TailCounters(s: OperationalSummary): seq<U64> {
    [s.durations.unobserved, s.durations.sum, s.durations.min, s.durations.max,
     s.spanStatus.unavailable, s.spanStatus.unset, s.spanStatus.ok, s.spanStatus.error,
     s.httpStatus.informational, s.httpStatus.success, s.httpStatus.redirection,
     s.httpStatus.clientError, s.httpStatus.serverError, s.httpStatus.unavailable,
     s.http429,
     s.tokens.input, s.tokens.output, s.tokens.unsplit, s.tokens.observed, s.tokens.unobserved]
  }

  function OperationalCounters(s: OperationalSummary): seq<U64> {
    s.buckets + TailCounters(s)
  }

  function FromTail(b: DurationBuckets, count: U64, r: seq<U64>): OperationalSummary
    requires |r| == 20
  {
    OperationalSummary(
      b, DurationSummary(count, r[0], r[1], r[2], r[3]), SpanStatusCounts(r[4], r[5], r[6], r[7]),
      HttpStatusCounts(r[8], r[9], r[10], r[11], r[12], r[13]), r[14],
      TokenCounts(r[15], r[16], r[17], r[18], r[19]))
  }

  /** What the stored counters mean: None where the buckets total past uint64. */
  function FromCounters(v: seq<U64>): Option<OperationalSummary>
    requires |v| == OPERATIONAL_COUNTERS
  {
    var b: DurationBuckets := v[..BUCKETS];
    if Total(b) > MAX_UINT64 then None else Some(FromTail(b, Total(b), v[BUCKETS..]))
  }

  method EncodeOperationalCounts(s: OperationalSummary) returns (text: string)
    ensures text == Join(OperationalCounters(s))
  {
    text := EncodeCounters(OperationalCounters(s));
  }

  function Decoded(text: string): Option<OperationalSummary> {
    match Split(text, OPERATIONAL_COUNTERS)
    case None => None
    case Some(v) => if |v| == OPERATIONAL_COUNTERS then FromCounters(v) else None
  }

  method DecodeOperationalCounts(text: string) returns (r: Option<OperationalSummary>)
    ensures r == Decoded(text)
  {
    var values := DecodeCounters(text, OPERATIONAL_COUNTERS);
    if values.None? {
      return None;
    }
    JoinSplits(text, OPERATIONAL_COUNTERS);
    var v := values.value;
    var b: DurationBuckets := v[..BUCKETS];
    var count := SumNoOverflow(b);
    if count.None? {
      return None;
    }
    r := Some(FromTail(b, count.value, v[BUCKETS..]));
  }

  lemma TailRoundTrip(s: OperationalSummary, count: U64)
    ensures FromTail(s.buckets, count, TailCounters(s)) == s.(durations := s.durations.(count := count))
  {
  }

  lemma CountersRoundTrip(s: OperationalSummary)
    ensures |OperationalCounters(s)| == OPERATIONAL_COUNTERS
    ensures FromCounters(OperationalCounters(s)) ==
            if Total(s.buckets) > MAX_UINT64 then None else Some(s.(durations := s.durations.(count := Total(s.buckets))))
  {
    var v := OperationalCounters(s);
    assert v[..BUCKETS] == s.buckets && v[BUCKETS..] == TailCounters(s);
    if Total(s.buckets) <= MAX_UINT64 {
      TailRoundTrip(s, Total(s.buckets));
    }
  }

  /** A summary survives storage exactly when its observed duration count is its bucket total. */
  lemma OperationalSurvivesStorage(s: OperationalSummary)
    ensures Decoded(Join(OperationalCounters(s))) == Some(s) <==> s.durations.count == Total(s.buckets)
  {
    CountersRoundTrip(s);
    SplitJoins(OperationalCounters(s));
  }

  /** So every summary the validator accepts survives storage. */
  lemma ValidSurvivesStorage(s: OperationalSummary, observations: nat)
    requires ValidSummary(s, observations)
    ensures Decoded(Join(OperationalCounters(s))) == Some(s)
  {
    OperationalSurvivesStorage(s);
  }

  lemma TailOf(b: DurationBuckets, count: U64, r: seq<U64>)
    requires |r| == 20
    ensures TailCounters(FromTail(b, count, r)) == r
  {
    var t := TailCounters(FromTail(b, count, r));
    forall i | 0 <= i < 20 ensures t[i] == r[i] {
      if i < 10 {} else {}
    }
  }

  /** Accepted text is exactly what encoding the summary it decodes to writes. */
  lemma OperationalTextUnique(text: string)
    ensures Decoded(text).Some? ==> Join(OperationalCounters(Decoded(text).value)) == text
  {
    if Decoded(text).Some? {
      JoinSplits(text, OPERATIONAL_COUNTERS);
      var v := Split(text, OPERATIONAL_COUNTERS).value;
      TailOf(v[..BUCKETS], Total(v[..BUCKETS]), v[BUCKETS..]);
      assert OperationalCounters(Decoded(text).value) == v[..BUCKETS] + v[BUCKETS..] == v;
    }
  }

  // ---- The migration backfill ---------------------------------------------------------------------------------

  /** duration_unobserved, span_status_unavailable, http_status_unavailable and tokens_unobserved, by storage position. */
  predicate StatesNothing(i: nat) {
    i == 11 || i == 15 || i == 24 || i == 30
  }

  const UNAVAILABLE_FLAGS: seq<bool> := seq(OPERATIONAL_COUNTERS, i requires 0 <= i => StatesNothing(i))

  /** The column text the backfill statement builds: a "0" for each counter, and the entry's observations for the ones
      that count what was not stated. */
  function BackfillText(observations: U64, flags: seq<bool>): string {
    if flags == [] then ""
    else
      var field := if flags[0] then Decimal(observations) else "0";
      if |flags| == 1 then field else field + "," + BackfillText(observations, flags[1..])
  }

  lemma {:induction false} BackfillIsJoin(observations: U64, v: seq<U64>, flags: seq<bool>)
    requires |flags| == |v|
    requires forall k | 0 <= k < |v| :: v[k] == if flags[k] then observations else 0
    ensures BackfillText(observations, flags) == Join(v)
  {
    assert Decimal(0) == "0";
    if |flags| > 1 {
      BackfillIsJoin(observations, v[1..], flags[1..]);
    }
  }

  lemma UnavailableCounters(n: U64)
    ensures |OperationalCounters(UnavailableOperational(n))| == OPERATIONAL_COUNTERS
    ensures forall k | 0 <= k < OPERATIONAL_COUNTERS ::
              OperationalCounters(UnavailableOperational(n))[k] == if StatesNothing(k) then n else 0
  {
    var s := UnavailableOperational(n);
    var v := OperationalCounters(s);
    forall k | 0 <= k < OPERATIONAL_COUNTERS ensures v[k] == if StatesNothing(k) then n else 0 {
      if k < BUCKETS {
        assert v[k] == s.buckets[k];
      } else {
        assert v[k] == TailCounters(s)[k - BUCKETS];
        UnavailableTail(n, k - BUCKETS);
      }
    }
  }

  lemma UnavailableTail(n: U64, k: nat)
    requires k < 20
    ensures TailCounters(UnavailableOperational(n))[k] == if k == 0 || k == 4 || k == 13 || k == 19 then n else 0
  {
    if k < 10 {} else {}
  }

  /** The migration's text decodes to "nothing was stated" for that many observations, and validates. */
  lemma BackfillDecodes(observations: U64)
    ensures Decoded(BackfillText(observations, UNAVAILABLE_FLAGS)) == Some(UnavailableOperational(observations))
    ensures ValidSummary(UnavailableOperational(observations), observations)
  {
    var s := UnavailableOperational(observations);
    var v := OperationalCounters(s);
    UnavailableCounters(observations);
    BackfillIsJoin(observations, v, UNAVAILABLE_FLAGS);
    UnavailableIsValid(observations);
    ValidSurvivesStorage(s, observations);
  }

  // ---- Fidelity counters --------------------------------------------------------------------------------------

  function FidelityCounters(b: BehaviorFidelity): seq<U64> {
    [b.semantic, b.transport, b.unrecorded, b.layerModel, b.layerTool, b.layerRetrieval,
     b.layerTransport, b.layerUnclassified, b.layerUnrecorded]
  }

  function FidelityFrom(v: seq<U64>): BehaviorFidelity
    requires |v| == FIDELITY_COUNTERS
  {
    BehaviorFidelity(v[0], v[1], v[2], v[3], v[4], v[5], v[6], v[7], v[8])
  }

  function DecodedFidelity(text: string): Option<BehaviorFidelity> {
    match Split(text, FIDELITY_COUNTERS)
    case None => None
    case Some(v) => if |v| == FIDELITY_COUNTERS then Some(FidelityFrom(v)) else None
  }

  method EncodeFidelityCounts(b: BehaviorFidelity) returns (text: string)
    ensures text == Join(FidelityCounters(b))
  {
    text := EncodeCounters(FidelityCounters(b));
  }

  method DecodeFidelityCounts(text: string) returns (r: Option<BehaviorFidelity>)
    ensures r == DecodedFidelity(text)
  {
    var values := DecodeCounters(text, FIDELITY_COUNTERS);
    if values.None? {
      return None;
    }
    JoinSplits(text, FIDELITY_COUNTERS);
    r := Some(FidelityFrom(values.value));
  }

  lemma FidelityCountersInverse(v: seq<U64>, b: BehaviorFidelity)
    requires |v| == FIDELITY_COUNTERS
    ensures FidelityCounters(FidelityFrom(v)) == v
    ensures |FidelityCounters(b)| == FIDELITY_COUNTERS && FidelityFrom(FidelityCounters(b)) == b
  {
    var w := FidelityCounters(FidelityFrom(v));
    forall i | 0 <= i < FIDELITY_COUNTERS ensures w[i] == v[i] {}
  }

  /** Every fidelity summary survives storage. */
  lemma FidelitySurvivesStorage(b: BehaviorFidelity)
    ensures DecodedFidelity(Join(FidelityCounters(b))) == Some(b)
  {
    var v := FidelityCounters(b);
    SplitJoins(v);
    FidelityCountersInverse(v, b);
  }

  /** Accepted fidelity text is exactly what encoding the counters it decodes to writes. */
  lemma FidelityTextUnique(text: string)
    ensures DecodedFidelity(text).Some? ==> Join(FidelityCounters(DecodedFidelity(text).value)) == text
  {
    if DecodedFidelity(text).Some? {
      JoinSplits(text, FIDELITY_COUNTERS);
      FidelityCountersInverse(Split(text, FIDELITY_COUNTERS).value, NO_FIDELITY);
    }
  }

  /** The text schema 13's migration writes: the third and ninth counters are the observations. */
  function FidelityBackfill(observations: U64): string {
    "0,0," + Decimal(observations) + ",0,0,0,0,0," + Decimal(observations)
  }

  lemma JoinCons(x: U64, rest: seq<U64>)
    requires rest != []
    ensures Join([x] + rest) == Decimal(x) + "," + Join(rest)
  {
    assert ([x] + rest)[1..] == rest;
  }

  lemma ZeroText()
    ensures Decimal(0) == "0"
  {
  }

  lemma JoinNine(n: U64)
    ensures Join([0, 0, n, 0, 0, 0, 0, 0, n]) == FidelityBackfill(n)
  {
    hide Join, Decimal;
    var b: seq<U64> := [0, 0, 0, 0, 0, n];
    ZeroText();
    JoinZeros(n);
    JoinCons(n, b);
    JoinCons(0, [n] + b);
    JoinCons(0, [0] + ([n] + b));
    assert [0] + ([0] + ([n] + b)) == [0, 0, n, 0, 0, 0, 0, 0, n];
  }

  lemma JoinOne(n: U64)
    ensures Join([n]) == Decimal(n)
  {
    hide Decimal;
  }

  lemma JoinZeros(n: U64)
    ensures Join([0, 0, 0, 0, 0, n]) == "0,0,0,0,0," + Decimal(n)
  {
    hide Join, Decimal;
    ZeroText();
    JoinOne(n);
    JoinCons(0, [n]);
    JoinCons(0, [0] + [n]);
    JoinCons(0, [0] + ([0] + [n]));
    JoinCons(0, [0] + ([0] + ([0] + [n])));
    JoinCons(0, [0] + ([0] + ([0] + ([0] + [n]))));
    assert [0] + ([0] + ([0] + ([0] + ([0] + [n])))) == [0, 0, 0, 0, 0, n];
  }

  lemma FidelityBackfillDecodes(observations: U64)
    ensures DecodedFidelity(FidelityBackfill(observations)) == Some(NO_FIDELITY.(unrecorded := observations, layerUnrecorded := observations))
    ensures Valid(NO_FIDELITY.(unrecorded := observations, layerUnrecorded := observations), observations)
  {
    var b := NO_FIDELITY.(unrecorded := observations, layerUnrecorded := observations);
    assert FidelityCounters(b) == [0, 0, observations, 0, 0, 0, 0, 0, observations];
    JoinNine(observations);
    FidelitySurvivesStorage(b);
  }

  // ---- Which counter stands where -----------------------------------------------------------------------------

  /** The thirty-one stored counters by position. */
  lemma StoredPositions(v: seq<U64>)
    requires |v| == OPERATIONAL_COUNTERS && Total(v[..BUCKETS]) <= MAX_UINT64
    ensures Decoded(Join(v)).Some?
    ensures var s := Decoded(Join(v)).value;
            && s.buckets == v[..11] && s.durations.count == Total(v[..11]) && s.durations.unobserved == v[11]
            && s.durations.sum == v[12] && s.durations.min == v[13] && s.durations.max == v[14]
            && s.spanStatus.unavailable == v[15] && s.spanStatus.unset == v[16] && s.spanStatus.ok == v[17] && s.spanStatus.error == v[18]
            && s.httpStatus.informational == v[19] && s.httpStatus.success == v[20] && s.httpStatus.redirection == v[21]
            && s.httpStatus.clientError == v[22] && s.httpStatus.serverError == v[23] && s.httpStatus.unavailable == v[24]
            && s.http429 == v[25]
            && s.tokens.input == v[26] && s.tokens.output == v[27] && s.tokens.unsplit == v[28]
            && s.tokens.observed == v[29] && s.tokens.unobserved == v[30]
  {
    hide Join, Split, Total;
    SplitJoins(v);
    TailPositions(v[BUCKETS..], v);
  }

  lemma TailPositions(r: seq<U64>, v: seq<U64>)
    requires |v| == OPERATIONAL_COUNTERS && r == v[BUCKETS..]
    ensures |r| == 20 && forall i | 0 <= i < 20 :: r[i] == v[11 + i]
  {
  }

  /** The nine stored fidelity counters by position. */
  lemma StoredFidelityPositions(v: seq<U64>)
    requires |v| == FIDELITY_COUNTERS
    ensures DecodedFidelity(Join(v)).Some?
    ensures var b := DecodedFidelity(Join(v)).value;
            && b.semantic == v[0] && b.transport == v[1] && b.unrecorded == v[2]
            && b.layerModel == v[3] && b.layerTool == v[4] && b.layerRetrieval == v[5]
            && b.layerTransport == v[6] && b.layerUnclassified == v[7] && b.layerUnrecorded == v[8]
  {
    hide Join, Split;
    SplitJoins(v);
  }
}
