/** The per-observation history of a run: what retaining one observation does (platform/observation_store.go), what the
    history is (platform/observation.go), the page query and the loop that reads every page
    (platform/controlplane.go). */
module Retention {
  import opened Bounded
  import opened Ordering
  import opened Codec
  import opened Counting

  const MAX_RETAINED_OBSERVATIONS: U64 := 4096
  const MAX_LIST_PAGE: nat := 64

  datatype HistoryRow = HistoryRow(retained: U64, complete: bool)

  datatype HistoryState = HistoryUnavailable | HistoryComplete | HistoryPartial

  datatype ObservationHistory = ObservationHistory(state: HistoryState, retained: U64)

  /** The run's observation rows by their stored key, and its history row. */
  datatype Retained = Retained(rows: map<string, Observation>, history: Option<HistoryRow>)

  datatype Plan = Plan(insert: bool, retained: U64, complete: bool)

  datatype ReadError = CorruptKey | CorruptHistory

  const NOTHING_RETAINED := Retained(map[], None)

  function PlanRetention(row: Option<HistoryRow>, sequence: U64): Plan {
    match row
    case None => Plan(true, 1, sequence == 1)
    case Some(h) =>
      if h.retained >= MAX_RETAINED_OBSERVATIONS then Plan(false, h.retained, false)
      else Plan(true, h.retained + 1, h.complete)
  }

  /** The history and observation rows after one record, or None where the row's key is already taken or the history
      row is not one this code writes. */
  function Retain(t: Retained, o: Observation): Option<Retained> {
    if t.history.Some? && t.history.value.retained > MAX_RETAINED_OBSERVATIONS then None
    else
      var plan := PlanRetention(t.history, o.sequence);
      if plan.insert && SequenceKey(o.sequence) in t.rows then None
      else Some(Retained(if plan.insert then t.rows[SequenceKey(o.sequence) := o] else t.rows,
                         Some(HistoryRow(plan.retained, plan.complete))))
  }

  function HistoryOf(row: Option<HistoryRow>, recordCount: U64): ObservationHistory {
    match row
    case None => ObservationHistory(if recordCount == 0 then HistoryComplete else HistoryUnavailable, 0)
    case Some(h) => ObservationHistory(if h.complete then HistoryComplete else HistoryPartial, h.retained)
  }

  /** correlationStateFor: the correlation state a comparison takes from the candidate's history. */
  function CorrelationStateFor(h: ObservationHistory): CorrelationState {
    match h.state
    case HistoryUnavailable => CorrelationUnavailable
    case HistoryComplete => CorrelationComplete
    case HistoryPartial => CorrelationPartial
  }

  // ---- The retained block -------------------------------------------------------------------------------------

  ghost predicate Dense(first: nat, obs: seq<Observation>) {
    forall i | 0 <= i < |obs| :: obs[i].sequence == first + i
  }

  function RowsOf(obs: seq<Observation>): map<string, Observation> {
    if obs == [] then map[]
    else RowsOf(obs[..|obs| - 1])[SequenceKey(obs[|obs| - 1].sequence) := obs[|obs| - 1]]
  }

  /** The records kept of those accepted since retention began. */
  function Kept(accepted: seq<Observation>): (k: seq<Observation>)
    ensures k <= accepted && |k| == Min(|accepted|, MAX_RETAINED_OBSERVATIONS)
  {
    accepted[..Min(|accepted|, MAX_RETAINED_OBSERVATIONS)]
  }

  /** The retained history of a run: a gap-free block of the first 4096 sequences since retention began, called complete
      exactly when nothing was accepted before the block and nothing after it was dropped. */
  ghost predicate IsBlock(t: Retained, first: nat, accepted: seq<Observation>) {
    && Dense(first, accepted)
    && t.rows == RowsOf(Kept(accepted))
    && t.history == if accepted == [] then None
                    else Some(HistoryRow(|Kept(accepted)|, first == 1 && |accepted| <= MAX_RETAINED_OBSERVATIONS))
  }

  lemma {:induction false} RowsOfKeys(first: nat, obs: seq<Observation>, n: U64)
    requires Dense(first, obs)
    ensures SequenceKey(n) in RowsOf(obs) <==> first <= n < first + |obs|
    ensures SequenceKey(n) in RowsOf(obs) ==> RowsOf(obs)[SequenceKey(n)] == obs[n - first]
  {
    if obs != [] {
      var init, last := obs[..|obs| - 1], obs[|obs| - 1];
      RowsOfKeys(first, init, n);
      KeyOrderIsNumericOrder(n, last.sequence);
    }
  }

  lemma {:induction false} RowsOfKeyShape(obs: seq<Observation>, k: string)
    requires k in RowsOf(obs)
    ensures exists i :: 0 <= i < |obs| && k == SequenceKey(obs[i].sequence)
  {
    var init, last := obs[..|obs| - 1], obs[|obs| - 1];
    if k == SequenceKey(last.sequence) {
      assert obs[|obs| - 1] == last;
    } else {
      RowsOfKeyShape(init, k);
      var i :| 0 <= i < |init| && k == SequenceKey(init[i].sequence);
      assert obs[i] == init[i];
    }
  }

  lemma KeptGrows(accepted: seq<Observation>, o: Observation)
    ensures Kept(accepted + [o]) == if |accepted| < MAX_RETAINED_OBSERVATIONS then Kept(accepted) + [o] else Kept(accepted)
    ensures |accepted| < MAX_RETAINED_OBSERVATIONS ==> Kept(accepted) == accepted
  {
  }

  lemma RowsOfSnoc(obs: seq<Observation>, o: Observation)
    ensures RowsOf(obs + [o]) == RowsOf(obs)[SequenceKey(o.sequence) := o]
  {
    assert (obs + [o])[..|obs|] == obs;
  }

  /** Every accepted record keeps the block, and its row's key is never already taken. */
  lemma RetainKeepsBlock(t: Retained, first: nat, accepted: seq<Observation>, o: Observation)
    requires IsBlock(t, first, accepted) && o.sequence == first + |accepted|
    ensures Retain(t, o).Some? && IsBlock(Retain(t, o).value, first, accepted + [o])
  {
    KeptGrows(accepted, o);
    KeyIsFree(first, accepted, o);
    RowsOfSnoc(Kept(accepted), o);
    DenseGrows(first, accepted, o);
  }

  lemma DenseGrows(first: nat, accepted: seq<Observation>, o: Observation)
    requires Dense(first, accepted) && o.sequence == first + |accepted|
    ensures Dense(first, accepted + [o])
  {
  }

  lemma KeyIsFree(first: nat, accepted: seq<Observation>, o: Observation)
    requires Dense(first, accepted) && o.sequence == first + |accepted|
    ensures SequenceKey(o.sequence) !in RowsOf(Kept(accepted))
  {
    RowsOfKeys(first, Kept(accepted), o.sequence);
  }

  // ---- Reading pages ------------------------------------------------------------------------------------------

  function KeysAfter(rows: map<string, Observation>, after: U64): set<string> {
    set k | k in rows && Less(SequenceKey(after), k)
  }

  /** The rows at the given keys, each with the sequence its key parses to. */
  function Scan(rows: map<string, Observation>, keys: seq<string>): Option<seq<Observation>> {
    if keys == [] then Some([])
    else
      match (Scan(rows, keys[..|keys| - 1]), ScanRow(rows, keys[|keys| - 1]))
      case (Some(scanned), Some(o)) => Some(scanned + [o])
      case _ => None
  }

  function ScanRow(rows: map<string, Observation>, key: string): Option<Observation> {
    match ParseSequenceKey(key)
    case None => None
    case Some(v) => if key in rows then Some(rows[key].(sequence := v)) else None
  }

  /** One page: the rows whose key sorts after the cursor's, in key order, at most `limit` of them. */
  ghost function Page(rows: map<string, Observation>, after: U64, limit: nat): Option<seq<Observation>> {
    var keys := SortIds(KeysAfter(rows, after));
    Scan(rows, keys[..Min(|keys|, limit)])
  }

  lemma {:induction false} ScanPrefixNone(rows: map<string, Observation>, keys: seq<string>, n: nat)
    requires n <= |keys| && Scan(rows, keys[..n]).None?
    ensures Scan(rows, keys).None?
    decreases |keys| - n
  {
    if n == |keys| {
      assert keys[..n] == keys;
    } else {
      assert keys[..n + 1][..n] == keys[..n];
      ScanPrefixNone(rows, keys, n + 1);
    }
  }

  /** runObservationPage's row loop. */
  method ScanRows(rows: map<string, Observation>, keys: seq<string>) returns (r: Option<seq<Observation>>)
    ensures r == Scan(rows, keys)
  {
    var observations: seq<Observation> := [];
    for i := 0 to |keys|
      invariant Scan(rows, keys[..i]) == Some(observations)
    {
      assert keys[..i + 1][..i] == keys[..i];
      var o := ScanRow(rows, keys[i]);
      if o.None? {
        ScanPrefixNone(rows, keys, i + 1);
        return None;
      }
      observations := observations + [o.value];
    }
    assert keys[..|keys|] == keys;
    return Some(observations);
  }

  /** The query: keys past the cursor, in byte order, at most `limit`. */
  method ReadPage(rows: map<string, Observation>, after: U64, limit: nat) returns (page: Option<seq<Observation>>)
    ensures page == Page(rows, after, limit)
  {
    var keys := SortSet(KeysAfter(rows, after));
    page := ScanRows(rows, keys[..Min(|keys|, limit)]);
  }

  function KeysOf(obs: seq<Observation>): seq<string> {
    seq(|obs|, i requires 0 <= i < |obs| => SequenceKey(obs[i].sequence))
  }

  /** The part of a dense block a cursor has not passed. */
  function Beyond(first: nat, obs: seq<Observation>, after: U64): seq<Observation> {
    if after < first then obs else if after - first + 1 >= |obs| then [] else obs[after - first + 1..]
  }

  lemma BeyondDense(first: nat, obs: seq<Observation>, after: U64)
    requires Dense(first, obs)
    ensures forall i | 0 <= i < |Beyond(first, obs, after)| :: Beyond(first, obs, after)[i].sequence == Max(first, after + 1) + i
  {
  }

  lemma DenseKeysAscend(first: nat, obs: seq<Observation>)
    requires Dense(first, obs)
    ensures Ascending(KeysOf(obs))
  {
    forall i, j | 0 <= i < j < |obs| ensures Less(KeysOf(obs)[i], KeysOf(obs)[j]) {
      KeyOrderIsNumericOrder(obs[i].sequence, obs[j].sequence);
    }
  }

  lemma KeyBeyond(first: nat, obs: seq<Observation>, after: U64, i: nat)
    requires Dense(first, obs) && i < |obs|
    ensures Less(SequenceKey(after), SequenceKey(obs[i].sequence)) <==> SequenceKey(obs[i].sequence) in KeysOf(Beyond(first, obs, after))
  {
    KeyOrderIsNumericOrder(after, obs[i].sequence);
    var rest := Beyond(first, obs, after);
    if after < obs[i].sequence {
      var j := if after < first then i else i - (after - first + 1);
      assert KeysOf(rest)[j] == SequenceKey(obs[i].sequence);
    }
    if SequenceKey(obs[i].sequence) in KeysOf(rest) {
      var j :| 0 <= j < |rest| && KeysOf(rest)[j] == SequenceKey(obs[i].sequence);
      BeyondDense(first, obs, after);
      KeyOrderIsNumericOrder(rest[j].sequence, obs[i].sequence);
    }
  }

  lemma QueriedKeyIsBeyond(first: nat, obs: seq<Observation>, after: U64, k: string)
    requires Dense(first, obs) && k in KeysAfter(RowsOf(obs), after)
    ensures k in KeysOf(Beyond(first, obs, after))
  {
    RowsOfKeyShape(obs, k);
    var i :| 0 <= i < |obs| && k == SequenceKey(obs[i].sequence);
    KeyBeyond(first, obs, after, i);
  }

  lemma BeyondAt(first: nat, obs: seq<Observation>, after: U64, j: nat) returns (i: nat)
    requires j < |Beyond(first, obs, after)|
    ensures i < |obs| && obs[i] == Beyond(first, obs, after)[j]
  {
    i := if after < first then j else j + (after - first + 1);
  }

  lemma BeyondKeyIsQueried(first: nat, obs: seq<Observation>, after: U64, j: nat)
    requires Dense(first, obs) && j < |Beyond(first, obs, after)|
    ensures KeysOf(Beyond(first, obs, after))[j] in KeysAfter(RowsOf(obs), after)
  {
    var i := BeyondAt(first, obs, after, j);
    assert KeysOf(Beyond(first, obs, after))[j] == SequenceKey(obs[i].sequence);
    KeyBeyond(first, obs, after, i);
    RowsOfKeys(first, obs, obs[i].sequence);
  }

  /** The query's keys on a dense block are exactly the keys of the rows beyond the cursor, in sequence order. */
  lemma KeysAfterBlock(first: nat, obs: seq<Observation>, after: U64)
    requires Dense(first, obs)
    ensures SortIds(KeysAfter(RowsOf(obs), after)) == KeysOf(Beyond(first, obs, after))
  {
    var keys := KeysOf(Beyond(first, obs, after));
    forall k | k in KeysAfter(RowsOf(obs), after) ensures k in Elems(keys) {
      QueriedKeyIsBeyond(first, obs, after, k);
    }
    forall k | k in Elems(keys) ensures k in KeysAfter(RowsOf(obs), after) {
      var j :| 0 <= j < |keys| && keys[j] == k;
      BeyondKeyIsQueried(first, obs, after, j);
    }
    assert Elems(keys) == KeysAfter(RowsOf(obs), after);
    BeyondKeysAscend(first, obs, after);
    SortIdsUnique(keys);
  }

  lemma BeyondKeysAscend(first: nat, obs: seq<Observation>, after: U64)
    requires Dense(first, obs)
    ensures Ascending(KeysOf(Beyond(first, obs, after)))
  {
    BeyondDense(first, obs, after);
    DenseKeysAscend(Max(first, after + 1), Beyond(first, obs, after));
  }

  lemma ScanRowOfBlock(first: nat, obs: seq<Observation>, i: nat)
    requires Dense(first, obs) && first >= 1 && i < |obs|
    ensures ScanRow(RowsOf(obs), KeysOf(obs)[i]) == Some(obs[i])
  {
    RowsOfKeys(first, obs, obs[i].sequence);
    KeyRoundTrip(obs[i].sequence, SequenceKey(obs[i].sequence));
  }

  lemma {:induction false} ScanAll(rows: map<string, Observation>, keys: seq<string>, obs: seq<Observation>)
    requires |keys| == |obs| && forall i | 0 <= i < |keys| :: ScanRow(rows, keys[i]) == Some(obs[i])
    ensures Scan(rows, keys) == Some(obs)
  {
    if keys != [] {
      var n := |keys| - 1;
      ScanAll(rows, keys[..n], obs[..n]);
      assert obs == obs[..n] + [obs[n]];
    }
  }

  lemma KeysOfSlice(obs: seq<Observation>, lo: nat, hi: nat)
    requires lo <= hi <= |obs|
    ensures KeysOf(obs[lo..])[..hi - lo] == KeysOf(obs)[lo..hi]
  {
  }

  /** Part of a dense block's keys scan to that part of the block. */
  lemma ScanBlock(first: nat, obs: seq<Observation>, lo: nat, hi: nat)
    requires Dense(first, obs) && first >= 1 && lo <= hi <= |obs|
    ensures Scan(RowsOf(obs), KeysOf(obs)[lo..hi]) == Some(obs[lo..hi])
  {
    hide ScanRow, RowsOf, Dense, SequenceKey, Scan;
    var keys := KeysOf(obs);
    forall i | 0 <= i < hi - lo ensures ScanRow(RowsOf(obs), keys[lo..hi][i]) == Some(obs[lo..hi][i]) {
      ScanRowOfBlock(first, obs, lo + i);
    }
    ScanAll(RowsOf(obs), keys[lo..hi], obs[lo..hi]);
  }

  lemma ScanSuffix(first: nat, obs: seq<Observation>, lo: nat, hi: nat)
    requires Dense(first, obs) && first >= 1 && lo <= hi <= |obs|
    ensures Scan(RowsOf(obs), KeysOf(obs[lo..])[..hi - lo]) == Some(obs[lo..hi])
  {
    KeysOfSlice(obs, lo, hi);
    ScanBlock(first, obs, lo, hi);
  }

  /** A page of a dense block is the next `limit` rows in sequence order, and every key reads back. */
  lemma PageOfBlock(first: nat, obs: seq<Observation>, after: U64, limit: nat, lo: nat)
    requires Dense(first, obs) && first >= 1 && lo <= |obs| && Beyond(first, obs, after) == obs[lo..]
    ensures Page(RowsOf(obs), after, limit) == Some(obs[lo..Min(|obs|, lo + limit)])
  {
    KeysAfterBlock(first, obs, after);
    PageByKeys(RowsOf(obs), after, limit, KeysOf(obs[lo..]));
    ScanSuffix(first, obs, lo, Min(|obs|, lo + limit));
  }

  lemma PageByKeys(rows: map<string, Observation>, after: U64, limit: nat, keys: seq<string>)
    requires SortIds(KeysAfter(rows, after)) == keys
    ensures Page(rows, after, limit) == Scan(rows, keys[..Min(|keys|, limit)])
  {
  }

  /** The page after the first `seen` rows of a block. */
  lemma NextPage(first: nat, kept: seq<Observation>, after: U64, seen: nat)
    requires Dense(first, kept) && first >= 1 && seen <= |kept|
    requires after == (if seen == 0 then 0 else first - 1 + seen) || after == first - 1 + seen
    ensures Page(RowsOf(kept), after, MAX_LIST_PAGE) == Some(kept[seen..Min(|kept|, seen + MAX_LIST_PAGE)])
  {
    hide *;
    BeyondSeen(first, kept, after, seen);
    PageOfBlock(first, kept, after, MAX_LIST_PAGE, seen);
  }

  lemma BeyondSeen(first: nat, kept: seq<Observation>, after: U64, seen: nat)
    requires first >= 1 && seen <= |kept|
    requires after == (if seen == 0 then 0 else first - 1 + seen) || after == first - 1 + seen
    ensures Beyond(first, kept, after) == kept[seen..]
  {
  }

  lemma SeenAndPage(first: nat, kept: seq<Observation>, seen: nat, upTo: nat)
    requires Dense(first, kept) && seen <= upTo <= |kept|
    ensures seen < upTo ==> kept[seen..upTo][upTo - seen - 1].sequence == first - 1 + upTo
    ensures kept[..seen] + kept[seen..upTo] == kept[..upTo]
  {
  }

  // ---- Reading everything -------------------------------------------------------------------------------------

  const MAX_PAGES: nat := MAX_RETAINED_OBSERVATIONS / MAX_LIST_PAGE + 1

  lemma BlockSays(t: Retained, first: nat, accepted: seq<Observation>)
    requires IsBlock(t, first, accepted)
    ensures Dense(first, Kept(accepted)) && t.rows == RowsOf(Kept(accepted)) && |Kept(accepted)| <= MAX_RETAINED_OBSERVATIONS
    ensures t.history.Some? ==> t.history.value.retained <= MAX_RETAINED_OBSERVATIONS
  {
    hide RowsOf;
  }

  /** Where page boundaries fall in n rows. */
  lemma PageEnds(n: nat, page: nat, seen: nat)
    requires seen == Min(n, page * MAX_LIST_PAGE)
    ensures seen <= Min(n, seen + MAX_LIST_PAGE) == Min(n, (page + 1) * MAX_LIST_PAGE) <= n
    ensures seen < Min(n, seen + MAX_LIST_PAGE) <==> n > page * MAX_LIST_PAGE
    ensures seen == Min(n, seen + MAX_LIST_PAGE) ==> seen == n
  {
  }

  /** How many rows the pages before this one hold. */
  function SeenBy(n: nat, page: nat): (seen: nat)
    ensures seen <= n
  {
    Min(n, page * MAX_LIST_PAGE)
  }

  lemma OnePage(first: nat, kept: seq<Observation>, page: nat, after: U64)
    requires Dense(first, kept) && first >= 1 && after == if page == 0 then 0 else first - 1 + SeenBy(|kept|, page)
    ensures var seen, upTo := SeenBy(|kept|, page), SeenBy(|kept|, page + 1);
            && seen <= upTo <= |kept| && Page(RowsOf(kept), after, MAX_LIST_PAGE) == Some(kept[seen..upTo])
            && kept[..seen] + kept[seen..upTo] == kept[..upTo]
            && (if seen == upTo then seen == |kept|
                else |kept| > page * MAX_LIST_PAGE && kept[seen..upTo][upTo - seen - 1].sequence == first - 1 + upTo)
  {
    hide Dense, Page, RowsOf;
    var seen := SeenBy(|kept|, page);
    PageEnds(|kept|, page, seen);
    NextPage(first, kept, after, seen);
    SeenAndPage(first, kept, seen, Min(|kept|, seen + MAX_LIST_PAGE));
  }

  lemma NoneSeen(n: nat)
    ensures SeenBy(n, 0) == 0
  {
  }

  /** The paging loop over a run whose history no longer changes. On every history ingest can leave it returns each
      retained row, and it stops on an empty page: neither the page bound nor the stuck-cursor exit is what ends it. */
  method RetainedHistory(t: Retained, recordCount: U64, ghost first: nat, ghost accepted: seq<Observation>)
      returns (r: Result<(seq<Observation>, ObservationHistory), ReadError>, ghost drained: bool)
    requires IsBlock(t, first, accepted) && first >= 1
    ensures r == Ok((Kept(accepted), HistoryOf(t.history, recordCount)))
    ensures drained
  {
    hide Page, RowsOf, KeysAfter, Scan, Dense, IsBlock, Kept, HistoryOf, SeenBy;
    BlockSays(t, first, accepted);
    ghost var kept := Kept(accepted);
    NoneSeen(|kept|);
    var observations: seq<Observation> := [];
    var history := HistoryOf(None, 1);
    var after: U64 := 0;
    drained := false;
    for page := 0 to MAX_PAGES
      invariant observations == kept[..SeenBy(|kept|, page)]
      invariant page > 0 ==> |kept| > (page - 1) * MAX_LIST_PAGE
      invariant after == if page == 0 then 0 else first - 1 + |observations|
    {
      OnePage(first, kept, page, after);
      if t.history.Some? && t.history.value.retained > MAX_RETAINED_OBSERVATIONS {
        return Err(CorruptHistory), false;
      }
      var got := ReadPage(t.rows, after, MAX_LIST_PAGE);
      if got.None? {
        return Err(CorruptKey), false;
      }
      history := HistoryOf(t.history, recordCount);
      if |got.value| == 0 {
        drained := true;
        assert kept[..|kept|] == kept;
        return Ok((observations, history)), drained;
      }
      observations := observations + got.value;
      var next := got.value[|got.value| - 1].sequence;
      if next <= after {
        return Ok((observations, history)), drained;
      }
      after := next;
    }
    return Ok((observations, history)), drained;
  }
}
