/** platform/behavior_fidelity.go: a behavior's observations counted by the fidelity and layer their envelopes stated. */
module Fidelity {
  import opened Bounded

  datatype FidelityStated = FidelityUnstated | FidelityTransport | FidelitySemantic | FidelityUnknown

  datatype Layer = LayerUnspecified | LayerModel | LayerTool | LayerRetrieval | LayerTransport | LayerUnknown

  datatype BehaviorFidelity = BehaviorFidelity(
    semantic: U64, transport: U64, unrecorded: U64,
    layerModel: U64, layerTool: U64, layerRetrieval: U64,
    layerTransport: U64, layerUnclassified: U64, layerUnrecorded: U64)

  datatype FidelityLevel = LevelSemantic | LevelTransport | LevelUnrecorded

  const NO_FIDELITY := BehaviorFidelity(0, 0, 0, 0, 0, 0, 0, 0, 0)

  /** Known values that do not contradict each other; a partial pair is valid. */
  predicate ValidPair(f: FidelityStated, l: Layer) {
    && !f.FidelityUnknown? && !l.LayerUnknown?
    && !(f == FidelityTransport && (l == LayerModel || l == LayerTool || l == LayerRetrieval))
    && !(f == FidelitySemantic && l == LayerTransport)
  }

  function Bump(n: U64): Option<U64> {
    AddCount(n, 1)
  }

  /** Counts one observation in both groups, or None where a counter would wrap. */
  function Observe(b: BehaviorFidelity, f: FidelityStated, l: Layer): Option<BehaviorFidelity> {
    if f == FidelitySemantic then
      match Bump(b.semantic)
      case None => None
      case Some(n) =>
        var next := b.(semantic := n);
        (match l
         case LayerModel => (match Bump(b.layerModel) case None => None case Some(k) => Some(next.(layerModel := k)))
         case LayerTool => (match Bump(b.layerTool) case None => None case Some(k) => Some(next.(layerTool := k)))
         case LayerRetrieval => (match Bump(b.layerRetrieval) case None => None case Some(k) => Some(next.(layerRetrieval := k)))
         case _ => (match Bump(b.layerUnclassified) case None => None case Some(k) => Some(next.(layerUnclassified := k))))
    else if f == FidelityTransport && l == LayerTransport then
      match (Bump(b.transport), Bump(b.layerTransport))
      case (Some(n), Some(k)) => Some(b.(transport := n, layerTransport := k))
      case _ => None
    else
      match (Bump(b.unrecorded), Bump(b.layerUnrecorded))
      case (Some(n), Some(k)) => Some(b.(unrecorded := n, layerUnrecorded := k))
      case _ => None
  }

  datatype Stated = Stated(fidelity: FidelityStated, layer: Layer)

  ghost predicate ValidStream(stream: seq<Stated>) {
    forall i | 0 <= i < |stream| :: ValidPair(stream[i].fidelity, stream[i].layer)
  }

  function FoldStream(stream: seq<Stated>): Option<BehaviorFidelity> {
    if stream == [] then Some(NO_FIDELITY)
    else
      match FoldStream(stream[..|stream| - 1])
      case None => None
      case Some(b) => Observe(b, stream[|stream| - 1].fidelity, stream[|stream| - 1].layer)
  }

  // ---- What the nine counters count ---------------------------------------------------------------------------

  function SemanticTally(stream: seq<Stated>, layers: set<Layer>): nat {
    if stream == [] then 0
    else
      var x := stream[|stream| - 1];
      SemanticTally(stream[..|stream| - 1], layers) + (if x.fidelity == FidelitySemantic && x.layer in layers then 1 else 0)
  }

  function TransportTally(stream: seq<Stated>): nat {
    if stream == [] then 0
    else
      TransportTally(stream[..|stream| - 1]) + (if stream[|stream| - 1] == Stated(FidelityTransport, LayerTransport) then 1 else 0)
  }

  const ANY_LAYER: set<Layer> := {LayerUnspecified, LayerModel, LayerTool, LayerRetrieval, LayerTransport, LayerUnknown}

  /** Semantic observations by the layer they name, transport ones whose layer says so too, and everything else unrecorded in
      both groups. */
  predicate CountsStated(b: BehaviorFidelity, stream: seq<Stated>) {
    && b.semantic == SemanticTally(stream, ANY_LAYER)
    && b.layerModel == SemanticTally(stream, {LayerModel}) && b.layerTool == SemanticTally(stream, {LayerTool})
    && b.layerRetrieval == SemanticTally(stream, {LayerRetrieval})
    && b.layerUnclassified == SemanticTally(stream, {LayerUnspecified, LayerTransport, LayerUnknown})
    && b.transport == b.layerTransport == TransportTally(stream)
    && b.unrecorded == b.layerUnrecorded == |stream| - b.semantic - b.transport
  }

  lemma StatedOneMore(b: BehaviorFidelity, stream: seq<Stated>, x: Stated)
    requires CountsStated(b, stream) && Observe(b, x.fidelity, x.layer).Some?
    ensures CountsStated(Observe(b, x.fidelity, x.layer).value, stream + [x])
  {
    assert (stream + [x])[..|stream|] == stream;
  }

  lemma NothingStated(none: seq<Stated>)
    requires |none| == 0
    ensures CountsStated(NO_FIDELITY, none)
  {
  }

  /** The nine counters of a stream, each by what the observations it counts stated. */
  lemma {:induction false} FoldCountsStated(stream: seq<Stated>)
    requires FoldStream(stream).Some?
    ensures CountsStated(FoldStream(stream).value, stream)
  {
    hide CountsStated, Observe;
    if stream == [] {
      NothingStated(stream);
    } else {
      var init, last := stream[..|stream| - 1], stream[|stream| - 1];
      FoldCountsStated(init);
      assert stream == init + [last];
      StatedOneMore(FoldStream(init).value, init, last);
    }
  }

  /** The restore-time rules over unbounded integers. */
  predicate Valid(b: BehaviorFidelity, observations: nat) {
    && b.semantic + b.transport + b.unrecorded == observations
    && b.layerModel + b.layerTool + b.layerRetrieval + b.layerUnclassified == b.semantic
    && b.layerTransport == b.transport && b.layerUnrecorded == b.unrecorded
  }

  method ValidateBehaviorFidelity(b: BehaviorFidelity, observations: U64) returns (ok: bool)
    ensures ok <==> Valid(b, observations)
  {
    var fidelityTotal := SumNoOverflow([b.semantic, b.transport, b.unrecorded]);
    TotalOfThree(b.semantic, b.transport, b.unrecorded);
    if fidelityTotal.None? || fidelityTotal.value != observations {
      return false;
    }
    var layers := [b.layerModel, b.layerTool, b.layerRetrieval, b.layerUnclassified];
    var semanticLayers := SumNoOverflow(layers);
    assert layers[1..] == [b.layerTool, b.layerRetrieval, b.layerUnclassified];
    TotalOfThree(b.layerTool, b.layerRetrieval, b.layerUnclassified);
    if semanticLayers.None? || semanticLayers.value != b.semantic {
      return false;
    }
    ok := b.layerTransport == b.transport && b.layerUnrecorded == b.unrecorded;
  }

  lemma TotalOfThree(a: U64, b: U64, c: U64)
    ensures Total([a, b, c]) == a + b + c
  {
    assert Total([c]) == c by { assert [c][1..] == []; }
    assert Total([b, c]) == b + c by { assert [b, c][1..] == [c]; }
    assert [a, b, c][1..] == [b, c];
  }

  lemma ObserveKeepsValid(b: BehaviorFidelity, f: FidelityStated, l: Layer, n: nat)
    requires Valid(b, n) && ValidPair(f, l) && n < MAX_UINT64
    ensures Observe(b, f, l).Some? && Valid(Observe(b, f, l).value, n + 1)
  {
  }

  lemma {:induction false} FoldIsValid(stream: seq<Stated>)
    requires ValidStream(stream) && |stream| <= MAX_UINT64
    ensures FoldStream(stream).Some? && Valid(FoldStream(stream).value, |stream|)
  {
    if stream != [] {
      var init, last := stream[..|stream| - 1], stream[|stream| - 1];
      FoldIsValid(init);
      ObserveKeepsValid(FoldStream(init).value, last.fidelity, last.layer, |init|);
    }
  }

  /** Undo one observation: which pair the counters show, and what is left without it. */
  lemma PeelOne(b: BehaviorFidelity, n: nat) returns (rest: BehaviorFidelity, s: Stated)
    requires Valid(b, n) && 0 < n <= MAX_UINT64
    ensures ValidPair(s.fidelity, s.layer) && Valid(rest, n - 1) && Observe(rest, s.fidelity, s.layer) == Some(b)
  {
    if b.transport > 0 {
      rest := b.(transport := b.transport - 1, layerTransport := b.layerTransport - 1);
      s := Stated(FidelityTransport, LayerTransport);
    } else if b.unrecorded > 0 {
      rest := b.(unrecorded := b.unrecorded - 1, layerUnrecorded := b.layerUnrecorded - 1);
      s := Stated(FidelityUnstated, LayerUnspecified);
    } else if b.layerModel > 0 {
      rest := b.(semantic := b.semantic - 1, layerModel := b.layerModel - 1);
      s := Stated(FidelitySemantic, LayerModel);
    } else if b.layerTool > 0 {
      rest := b.(semantic := b.semantic - 1, layerTool := b.layerTool - 1);
      s := Stated(FidelitySemantic, LayerTool);
    } else if b.layerRetrieval > 0 {
      rest := b.(semantic := b.semantic - 1, layerRetrieval := b.layerRetrieval - 1);
      s := Stated(FidelitySemantic, LayerRetrieval);
    } else {
      rest := b.(semantic := b.semantic - 1, layerUnclassified := b.layerUnclassified - 1);
      s := Stated(FidelitySemantic, LayerUnspecified);
    }
  }

  ghost predicate Produces(stream: seq<Stated>, b: BehaviorFidelity, n: nat) {
    ValidStream(stream) && |stream| == n && FoldStream(stream) == Some(b)
  }

  lemma ProducesOneMore(init: seq<Stated>, rest: BehaviorFidelity, s: Stated, b: BehaviorFidelity, n: nat)
    requires Produces(init, rest, n) && ValidPair(s.fidelity, s.layer) && Observe(rest, s.fidelity, s.layer) == Some(b)
    ensures Produces(init + [s], b, n + 1)
  {
    assert (init + [s])[..|init|] == init;
  }

  lemma EmptyProduces(none: seq<Stated>)
    requires |none| == 0
    ensures Produces(none, NO_FIDELITY, 0)
  {
  }

  lemma NoneCounted(b: BehaviorFidelity)
    requires Valid(b, 0)
    ensures b == NO_FIDELITY
  {
  }

  lemma NothingReachable(b: BehaviorFidelity, none: seq<Stated>)
    requires Valid(b, 0) && |none| == 0
    ensures Reachable(b, 0)
  {
    NoneCounted(b);
    EmptyProduces(none);
  }

  lemma ReachableThrough(b: BehaviorFidelity, n: nat) returns (rest: BehaviorFidelity)
    requires Valid(b, n) && 0 < n <= MAX_UINT64
    ensures Valid(rest, n - 1) && (Reachable(rest, n - 1) ==> Reachable(b, n))
  {
    var s;
    rest, s := PeelOne(b, n);
    if Reachable(rest, n - 1) {
      var init :| Produces(init, rest, n - 1);
      ProducesOneMore(init, rest, s, b, n - 1);
    }
  }

  lemma {:induction false} StreamFor(b: BehaviorFidelity, n: nat)
    requires Valid(b, n) && n <= MAX_UINT64
    ensures Reachable(b, n)
    decreases n
  {
    if n == 0 {
      NothingReachable(b, []);
    } else {
      var rest := ReachableThrough(b, n);
      StreamFor(rest, n - 1);
    }
  }

  ghost predicate Reachable(b: BehaviorFidelity, n: nat) {
    exists stream {:trigger Produces(stream, b, n)} :: Produces(stream, b, n)
  }

  /** The validator accepts exactly the nine counters some stream of that many valid observations produces. */
  lemma FidelityValidatorExact(b: BehaviorFidelity, n: U64)
    ensures Valid(b, n) <==> Reachable(b, n)
  {
    if Valid(b, n) {
      StreamFor(b, n);
    }
    if Reachable(b, n) {
      var stream :| Produces(stream, b, n);
      FoldIsValid(stream);
    }
  }

  // ---- Reporting and adding -----------------------------------------------------------------------------------

  /** Transport if any observation was transport, else semantic if any was, else unrecorded; and whether two or more
      fidelity counters are non-zero. */
  function Reported(b: BehaviorFidelity): (FidelityLevel, bool) {
    var nonZero := (if b.semantic > 0 then 1 else 0) + (if b.transport > 0 then 1 else 0) + (if b.unrecorded > 0 then 1 else 0);
    (if b.transport > 0 then LevelTransport else if b.semantic > 0 then LevelSemantic else LevelUnrecorded, nonZero > 1)
  }

  /** How many observations of a stream were semantic, transport with a layer to match, or neither. */
  function KindTally(stream: seq<Stated>, l: FidelityLevel): nat {
    KindsPartition(stream);
    match l
    case LevelSemantic => SemanticTally(stream, ANY_LAYER)
    case LevelTransport => TransportTally(stream)
    case LevelUnrecorded => |stream| - SemanticTally(stream, ANY_LAYER) - TransportTally(stream)
  }

  lemma {:induction false} KindsPartition(stream: seq<Stated>)
    ensures SemanticTally(stream, ANY_LAYER) + TransportTally(stream) <= |stream|
  {
    if stream != [] {
      KindsPartition(stream[..|stream| - 1]);
    }
  }

  /** The level reported of what a stream of observations counts, and whether observations of more than one kind are under it. */
  lemma ReportedMeans(stream: seq<Stated>)
    requires FoldStream(stream).Some?
    ensures var (level, mixed) := Reported(FoldStream(stream).value);
            && (level == LevelTransport <==> KindTally(stream, LevelTransport) > 0)
            && (level == LevelSemantic <==> KindTally(stream, LevelTransport) == 0 && KindTally(stream, LevelSemantic) > 0)
            && (mixed <==> exists l, m: FidelityLevel :: l != m && KindTally(stream, l) > 0 && KindTally(stream, m) > 0)
  {
    hide SemanticTally, TransportTally, FoldStream;
    FoldCountsStated(stream);
    var t, m, u := KindTally(stream, LevelTransport), KindTally(stream, LevelSemantic), KindTally(stream, LevelUnrecorded);
    var mixed := Reported(FoldStream(stream).value).1;
    if mixed {
      var l, k := if t > 0 then LevelTransport else LevelSemantic, if u > 0 then LevelUnrecorded else LevelSemantic;
      assert l != k && KindTally(stream, l) > 0 && KindTally(stream, k) > 0;
    }
  }

  function Add(b: BehaviorFidelity, o: BehaviorFidelity): Option<BehaviorFidelity> {
    if || b.semantic + o.semantic > MAX_UINT64 || b.transport + o.transport > MAX_UINT64
       || b.unrecorded + o.unrecorded > MAX_UINT64 || b.layerModel + o.layerModel > MAX_UINT64
       || b.layerTool + o.layerTool > MAX_UINT64 || b.layerRetrieval + o.layerRetrieval > MAX_UINT64
       || b.layerTransport + o.layerTransport > MAX_UINT64 || b.layerUnclassified + o.layerUnclassified > MAX_UINT64
       || b.layerUnrecorded + o.layerUnrecorded > MAX_UINT64
    then None
    else Some(BehaviorFidelity(
                b.semantic + o.semantic, b.transport + o.transport, b.unrecorded + o.unrecorded,
                b.layerModel + o.layerModel, b.layerTool + o.layerTool, b.layerRetrieval + o.layerRetrieval,
                b.layerTransport + o.layerTransport, b.layerUnclassified + o.layerUnclassified,
                b.layerUnrecorded + o.layerUnrecorded))
  }

  function AddRuns(runs: seq<BehaviorFidelity>): Option<BehaviorFidelity> {
    if runs == [] then Some(NO_FIDELITY)
    else
      match AddRuns(runs[..|runs| - 1])
      case None => None
      case Some(sum) => Add(sum, runs[|runs| - 1])
  }

  function Rank(l: FidelityLevel): nat {
    match l case LevelTransport => 0 case LevelSemantic => 1 case LevelUnrecorded => 2
  }

  ghost predicate IsLowestLevel(l: FidelityLevel, runs: seq<BehaviorFidelity>) {
    && (forall i | 0 <= i < |runs| :: Rank(l) <= Rank(Reported(runs[i]).0))
    && (if runs == [] then l == LevelUnrecorded else exists i :: 0 <= i < |runs| && l == Reported(runs[i]).0)
  }

  /** The level reported for a sum over runs is the lowest level any run reports. */
  lemma {:induction false} SumReportsLowest(runs: seq<BehaviorFidelity>)
    requires AddRuns(runs).Some?
    ensures IsLowestLevel(Reported(AddRuns(runs).value).0, runs)
  {
    if runs != [] {
      var init, last := runs[..|runs| - 1], runs[|runs| - 1];
      assert runs == init + [last];
      SumReportsLowest(init);
      var l := Reported(AddRuns(runs).value).0;
      assert l == (if Rank(Reported(last).0) <= Rank(Reported(AddRuns(init).value).0) then Reported(last).0
                   else Reported(AddRuns(init).value).0);
      if l == Reported(last).0 {
        assert runs[|runs| - 1] == last;
      } else {
        var i :| 0 <= i < |init| && Reported(AddRuns(init).value).0 == Reported(init[i]).0;
        assert runs[i] == init[i];
      }
    }
  }


  /** In any order of adding, the reported level is the same. */
  lemma ReportedIgnoresOrder(a: seq<BehaviorFidelity>, b: seq<BehaviorFidelity>)
    requires multiset(a) == multiset(b) && AddRuns(a).Some? && AddRuns(b).Some?
    ensures Reported(AddRuns(a).value).0 == Reported(AddRuns(b).value).0
  {
    SumReportsLowest(a);
    SumReportsLowest(b);
    LowestLevelUnique(Reported(AddRuns(a).value).0, a, Reported(AddRuns(b).value).0, b);
  }

  lemma LowestLevelUnique(l: FidelityLevel, a: seq<BehaviorFidelity>, m: FidelityLevel, b: seq<BehaviorFidelity>)
    requires multiset(a) == multiset(b) && IsLowestLevel(l, a) && IsLowestLevel(m, b)
    ensures l == m
  {
    if a == [] {
      assert |multiset(b)| == 0;
    } else {
      assert |multiset(a)| != 0;
      var i :| 0 <= i < |a| && l == Reported(a[i]).0;
      assert a[i] in multiset(b);
      var j :| 0 <= j < |b| && b[j] == a[i];
      var k :| 0 <= k < |b| && m == Reported(b[k]).0;
      assert b[k] in multiset(a);
      var h :| 0 <= h < |a| && a[h] == b[k];
    }
  }
}
