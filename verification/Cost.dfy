/** platform/cost.go: pricing one side's tokens in 128-bit arithmetic, and what its totals conserve. */
module Cost {
  import opened Bounded
  import opened Ordering
  import opened BehaviorOperational
  import opened Aggregate
  import opened Collector
  import opened Evidence
  import opened Conservation

  datatype ModelPrice = ModelPrice(inputMicros: U64, outputMicros: U64)

  type Pricing = map<string, ModelPrice>

  datatype CostEvidence = CostEvidence(
    runsWithEvidence: U64, costMicros: U64, pricedTokens: U64, unpricedTokens: U64,
    tokenObservations: U64, observationsWithoutTokens: U64)

  // ---- One model's cost, in 64-bit limbs ----------------------------------------------------------------------

  const PER_MILLION: int := 1_000_000

  lemma ProductFits(x: U64, y: U64)
    ensures 0 <= x * y <= MAX_UINT64 * MAX_UINT64
  {
    ScalesUp(x, MAX_UINT64, y);
    ScalesUp(y, MAX_UINT64, MAX_UINT64);
  }

  lemma ScalesUp(a: nat, b: nat, c: nat)
    requires a <= b
    ensures 0 <= a * c <= b * c
  {
  }

  /** bits.Mul64: the high and low words of the product. */
  function Mul64(x: U64, y: U64): (r: (U64, U64))
    ensures r.0 * TWO_TO_THE_64 + r.1 == x * y
  {
    ProductFits(x, y);
    (x * y / TWO_TO_THE_64, x * y % TWO_TO_THE_64)
  }

  /** bits.Add64: the sum word and the carry. */
  function Add64(x: U64, y: U64, carry: U64): (r: (U64, U64))
    requires carry <= 1
    ensures r.1 * TWO_TO_THE_64 + r.0 == x + y + carry && r.1 <= 1
  {
    ((x + y + carry) % TWO_TO_THE_64, (x + y + carry) / TWO_TO_THE_64)
  }

  lemma QuotientFits(hi: U64, lo: U64, d: U64)
    requires hi < d
    ensures 0 <= (hi * TWO_TO_THE_64 + lo) / d <= MAX_UINT64
  {
    ScalesUp(hi + 1, d, TWO_TO_THE_64);
    QuotientBelow(hi * TWO_TO_THE_64 + lo, d, TWO_TO_THE_64);
  }

  lemma QuotientBelow(n: nat, d: nat, bound: nat)
    requires n < d * bound && d > 0
    ensures 0 <= n / d < bound
  {
    var q := n / d;
    assert q * d <= n;
    if q >= bound {
      ScalesUp(bound, q, d);
    }
  }

  /** bits.Div64: panics unless the quotient fits one word. */
  function Div64(hi: U64, lo: U64, d: U64): U64
    requires hi < d
  {
    QuotientFits(hi, lo, d);
    (hi * TWO_TO_THE_64 + lo) / d
  }

  function ModelCost(input: U64, inPrice: U64, output: U64, outPrice: U64): Option<U64> {
    var (hiIn, loIn) := Mul64(input, inPrice);
    var (hiOut, loOut) := Mul64(output, outPrice);
    var (lo, carry) := Add64(loIn, loOut, 0);
    var (hi, overflow) := Add64(hiIn, hiOut, carry);
    if overflow != 0 then None
    else if hi >= PER_MILLION then None
    else Some(Div64(hi, lo, PER_MILLION))
  }

  function Price(input: nat, inPrice: nat, output: nat, outPrice: nat): nat {
    (input * inPrice + output * outPrice) / PER_MILLION
  }

  lemma LimbsBound(total: nat, hi: nat, lo: nat, overflow: nat)
    requires total == (hi + overflow * TWO_TO_THE_64) * TWO_TO_THE_64 + lo && lo < TWO_TO_THE_64 && overflow <= 1
    ensures total / PER_MILLION <= MAX_UINT64 <==> overflow == 0 && hi < PER_MILLION
  {
    if overflow == 1 {
      assert total >= TWO_TO_THE_64 * TWO_TO_THE_64;
    } else {
      assert total == hi * TWO_TO_THE_64 + lo;
      if hi < PER_MILLION {
        assert total < (hi + 1) * TWO_TO_THE_64;
      } else {
        assert total >= PER_MILLION * TWO_TO_THE_64;
      }
    }
  }

  /** The cost is exactly the floor of the two products' sum over a million, and an error exactly where that floor does not
      fit 64 bits. */
  lemma ModelCostExact(input: U64, inPrice: U64, output: U64, outPrice: U64)
    ensures ModelCost(input, inPrice, output, outPrice).Some? <==> Price(input, inPrice, output, outPrice) <= MAX_UINT64
    ensures ModelCost(input, inPrice, output, outPrice).Some? ==>
              ModelCost(input, inPrice, output, outPrice).value == Price(input, inPrice, output, outPrice)
  {
    var (hiIn, loIn) := Mul64(input, inPrice);
    var (hiOut, loOut) := Mul64(output, outPrice);
    var (lo, carry) := Add64(loIn, loOut, 0);
    var (hi, overflow) := Add64(hiIn, hiOut, carry);
    var total := input * inPrice + output * outPrice;
    assert total == (hi + overflow * TWO_TO_THE_64) * TWO_TO_THE_64 + lo by {
      assert total == hiIn * TWO_TO_THE_64 + loIn + hiOut * TWO_TO_THE_64 + loOut;
    }
    LimbsBound(total, hi, lo, overflow);
  }

  // ---- Totals over entries ------------------------------------------------------------------------------------

  function SumBy(f: BehaviorEntry -> nat, entries: seq<BehaviorEntry>): nat {
    if entries == [] then 0 else SumBy(f, entries[..|entries| - 1]) + f(entries[|entries| - 1])
  }

  lemma {:induction false} SumByConcat(f: BehaviorEntry -> nat, a: seq<BehaviorEntry>, b: seq<BehaviorEntry>)
    ensures SumBy(f, a + b) == SumBy(f, a) + SumBy(f, b)
  {
    if b == [] {
      assert a + b == a;
    } else {
      assert (a + b)[..|a + b| - 1] == a + b[..|b| - 1];
      SumByConcat(f, a, b[..|b| - 1]);
    }
  }

  lemma SumByOne(f: BehaviorEntry -> nat, e: BehaviorEntry)
    ensures SumBy(f, [e]) == f(e)
  {
    assert [e][..0] == [];
  }

  lemma SumByRemove(f: BehaviorEntry -> nat, b: seq<BehaviorEntry>, i: nat)
    requires i < |b|
    ensures SumBy(f, b) == SumBy(f, b[..i] + b[i + 1..]) + f(b[i])
  {
    hide SumBy;
    assert b == b[..i] + [b[i]] + b[i + 1..];
    SumByConcat(f, b[..i] + [b[i]], b[i + 1..]);
    SumByConcat(f, b[..i], [b[i]]);
    SumByConcat(f, b[..i], b[i + 1..]);
    SumByOne(f, b[i]);
  }

  /** A total does not depend on the order of the entries. */
  lemma {:induction false} SumByIgnoresOrder(f: BehaviorEntry -> nat, a: seq<BehaviorEntry>, b: seq<BehaviorEntry>)
    requires multiset(a) == multiset(b)
    ensures SumBy(f, a) == SumBy(f, b)
  {
    if a == [] {
      assert |multiset(b)| == 0;
    } else {
      var i := SameWithoutOne(a, b);
      SumByIgnoresOrder(f, a[..|a| - 1], b[..i] + b[i + 1..]);
      SumByRemove(f, b, i);
    }
  }

  function TokensOf(e: BehaviorEntry): TokenCounts {
    e.operational.tokens
  }

  /** The entry reported tokens; one that did not is passed over. */
  predicate Reports(e: BehaviorEntry) {
    TokensOf(e).observed != 0
  }

  predicate PricedAs(models: set<string>, model: string, e: BehaviorEntry) {
    Reports(e) && e.behavior.operationName == model && model in models
  }

  function SaidTokens(e: BehaviorEntry): nat { TokensOf(e).observed }
  function SaidNoTokens(e: BehaviorEntry): nat { TokensOf(e).unobserved }
  function Unsplit(e: BehaviorEntry): nat { if Reports(e) then TokensOf(e).unsplit else 0 }
  function Unpaid(models: set<string>): BehaviorEntry -> nat {
    e => if Reports(e) && e.behavior.operationName !in models then TokensOf(e).input + TokensOf(e).output else 0
  }
  function InputTo(models: set<string>, model: string): BehaviorEntry -> nat {
    e => if PricedAs(models, model, e) then TokensOf(e).input else 0
  }
  function OutputTo(models: set<string>, model: string): BehaviorEntry -> nat {
    e => if PricedAs(models, model, e) then TokensOf(e).output else 0
  }
  function Reported(e: BehaviorEntry): nat { if Reports(e) then TokensOf(e).input + TokensOf(e).output + TokensOf(e).unsplit else 0 }

  /** What a side's counters hold. */
  datatype SideTotals = SideTotals(
    runs: U64, tokenObservations: U64, withoutTokens: U64, input: map<string, U64>, output: map<string, U64>, unpaid: U64, unsplit: U64)

  const NO_TOTALS := SideTotals(0, 0, 0, map[], map[], 0, 0)

  function At(m: map<string, U64>, model: string): U64 {
    if model in m then m[model] else 0
  }

  /** The counters are the true totals of the entries, and only priced models that reported tokens have a slot. */
  ghost predicate Accounts(t: SideTotals, models: set<string>, all: seq<BehaviorEntry>) {
    && t.tokenObservations == SumBy(SaidTokens, all) && t.withoutTokens == SumBy(SaidNoTokens, all)
    && t.unsplit == SumBy(Unsplit, all) && t.unpaid == SumBy(Unpaid(models), all)
    && t.input.Keys == t.output.Keys <= models
    && forall m | m in models :: At(t.input, m) == SumBy(InputTo(models, m), all) && At(t.output, m) == SumBy(OutputTo(models, m), all)
  }

  /** Every counter's true total fits 64 bits. */
  ghost predicate TotalsFit(models: set<string>, all: seq<BehaviorEntry>) {
    && SumBy(SaidTokens, all) <= MAX_UINT64 && SumBy(SaidNoTokens, all) <= MAX_UINT64
    && SumBy(Unsplit, all) <= MAX_UINT64 && SumBy(Unpaid(models), all) <= MAX_UINT64
    && forall m | m in models :: SumBy(InputTo(models, m), all) <= MAX_UINT64 && SumBy(OutputTo(models, m), all) <= MAX_UINT64
  }

  /** Folds one entry in, or None at the first counter that would wrap. */
  function AddEntry(t: SideTotals, models: set<string>, e: BehaviorEntry): Option<SideTotals> {
    var k, model := TokensOf(e), e.behavior.operationName;
    if t.tokenObservations + k.observed > MAX_UINT64 || t.withoutTokens + k.unobserved > MAX_UINT64 then None
    else
      var u := t.(tokenObservations := t.tokenObservations + k.observed, withoutTokens := t.withoutTokens + k.unobserved);
      if k.observed == 0 then Some(u)
      else if u.unsplit + k.unsplit > MAX_UINT64 then None
      else
        var v := u.(unsplit := u.unsplit + k.unsplit);
        if model !in models then
          if v.unpaid + k.input > MAX_UINT64 || v.unpaid + k.input + k.output > MAX_UINT64 then None
          else Some(v.(unpaid := v.unpaid + k.input + k.output))
        else if At(v.input, model) + k.input > MAX_UINT64 || At(v.output, model) + k.output > MAX_UINT64 then None
        else Some(v.(input := v.input[model := At(v.input, model) + k.input], output := v.output[model := At(v.output, model) + k.output]))
  }

  lemma SumBySnoc(f: BehaviorEntry -> nat, all: seq<BehaviorEntry>, e: BehaviorEntry)
    ensures SumBy(f, all + [e]) == SumBy(f, all) + f(e)
  {
    assert (all + [e])[..|all|] == all;
  }

  lemma SumsSnoc(models: set<string>, all: seq<BehaviorEntry>, e: BehaviorEntry)
    ensures SumBy(SaidTokens, all + [e]) == SumBy(SaidTokens, all) + SaidTokens(e)
    ensures SumBy(SaidNoTokens, all + [e]) == SumBy(SaidNoTokens, all) + SaidNoTokens(e)
    ensures SumBy(Unsplit, all + [e]) == SumBy(Unsplit, all) + Unsplit(e)
    ensures SumBy(Unpaid(models), all + [e]) == SumBy(Unpaid(models), all) + Unpaid(models)(e)
    ensures forall m :: SumBy(InputTo(models, m), all + [e]) == SumBy(InputTo(models, m), all) + InputTo(models, m)(e)
    ensures forall m :: SumBy(OutputTo(models, m), all + [e]) == SumBy(OutputTo(models, m), all) + OutputTo(models, m)(e)
  {
    hide SumBy, InputTo, OutputTo, Unpaid, SaidTokens, SaidNoTokens, Unsplit;
    SumBySnoc(SaidTokens, all, e);
    SumBySnoc(SaidNoTokens, all, e);
    SumBySnoc(Unsplit, all, e);
    SumBySnoc(Unpaid(models), all, e);
    forall m ensures SumBy(InputTo(models, m), all + [e]) == SumBy(InputTo(models, m), all) + InputTo(models, m)(e)
             ensures SumBy(OutputTo(models, m), all + [e]) == SumBy(OutputTo(models, m), all) + OutputTo(models, m)(e)
    {
      SumBySnoc(InputTo(models, m), all, e);
      SumBySnoc(OutputTo(models, m), all, e);
    }
  }

  /** One entry is refused exactly when some total no longer fits, and otherwise the counters stay the totals. */
  lemma AddEntryAccounts(t: SideTotals, models: set<string>, all: seq<BehaviorEntry>, e: BehaviorEntry)
    requires Accounts(t, models, all)
    ensures AddEntry(t, models, e).Some? <==> TotalsFit(models, all + [e])
    ensures AddEntry(t, models, e).Some? ==> Accounts(AddEntry(t, models, e).value, models, all + [e]) && AddEntry(t, models, e).value.runs == t.runs
  {
    hide SumBy;
    SumsSnoc(models, all, e);
    var model := e.behavior.operationName;
    if model in models {
      assert InputTo(models, model)(e) == if Reports(e) then TokensOf(e).input else 0;
      assert OutputTo(models, model)(e) == if Reports(e) then TokensOf(e).output else 0;
    }
  }

  lemma RunsAreApart(t: SideTotals, u: SideTotals, models: set<string>, all: seq<BehaviorEntry>)
    requires Accounts(t, models, all) && u == t.(runs := u.runs)
    ensures Accounts(u, models, all) && TotalsFit(models, all)
  {
    hide SumBy;
  }

  lemma FitsBefore(models: set<string>, all: seq<BehaviorEntry>, more: seq<BehaviorEntry>)
    requires TotalsFit(models, all + more)
    ensures TotalsFit(models, all)
  {
    hide SumBy;
    SumByConcat(SaidTokens, all, more);
    SumByConcat(SaidNoTokens, all, more);
    SumByConcat(Unsplit, all, more);
    SumByConcat(Unpaid(models), all, more);
    forall m | m in models ensures SumBy(InputTo(models, m), all) <= MAX_UINT64 && SumBy(OutputTo(models, m), all) <= MAX_UINT64 {
      SumByConcat(InputTo(models, m), all, more);
      SumByConcat(OutputTo(models, m), all, more);
    }
  }

  // ---- Pricing the totals -------------------------------------------------------------------------------------

  function ModelPriceOf(p: Pricing, t: SideTotals, m: string): nat {
    if m in p then Price(At(t.input, m), p[m].inputMicros, At(t.output, m), p[m].outputMicros) else 0
  }

  function ModelTokens(t: SideTotals, m: string): nat {
    At(t.input, m) + At(t.output, m)
  }

  ghost function CostOver(p: Pricing, t: SideTotals, models: set<string>): nat
    decreases |models|
  {
    if models == {} then 0
    else
      var m :| m in models;
      ModelPriceOf(p, t, m) + CostOver(p, t, models - {m})
  }

  ghost function TokensOver(t: SideTotals, models: set<string>): nat
    decreases |models|
  {
    if models == {} then 0
    else
      var m :| m in models;
      ModelTokens(t, m) + TokensOver(t, models - {m})
  }

  /** Map order does not matter: any model may be taken first. */
  lemma {:induction false} CostOverAt(p: Pricing, t: SideTotals, models: set<string>, m: string)
    requires m in models
    ensures CostOver(p, t, models) == ModelPriceOf(p, t, m) + CostOver(p, t, models - {m})
    decreases |models|
  {
    hide ModelPriceOf;
    var k :| k in models && CostOver(p, t, models) == ModelPriceOf(p, t, k) + CostOver(p, t, models - {k});
    if k != m {
      CostOverAt(p, t, models - {k}, m);
      CostOverAt(p, t, models - {m}, k);
      assert models - {k} - {m} == models - {m} - {k};
    }
  }

  lemma {:induction false} TokensOverAt(t: SideTotals, models: set<string>, m: string)
    requires m in models
    ensures TokensOver(t, models) == ModelTokens(t, m) + TokensOver(t, models - {m})
    decreases |models|
  {
    hide ModelTokens;
    var k :| k in models && TokensOver(t, models) == ModelTokens(t, k) + TokensOver(t, models - {k});
    if k != m {
      TokensOverAt(t, models - {k}, m);
      TokensOverAt(t, models - {m}, k);
      assert models - {k} - {m} == models - {m} - {k};
    }
  }

  /** What pricing a side comes to, in unbounded arithmetic: None where a figure does not fit 64 bits. */
  ghost function Priced(p: Pricing, t: SideTotals): Option<CostEvidence> {
    var cost, tokens, unpriced := CostOver(p, t, t.input.Keys), TokensOver(t, t.input.Keys), t.unpaid + t.unsplit;
    if cost > MAX_UINT64 || tokens > MAX_UINT64 || unpriced > MAX_UINT64 then None
    else Some(CostEvidence(t.runs, cost, tokens, unpriced, t.tokenObservations, t.withoutTokens))
  }

  lemma PartOfOver(p: Pricing, t: SideTotals, done: set<string>, left: set<string>, m: string)
    requires m in left && done !! left && done + left == t.input.Keys
    ensures CostOver(p, t, done + {m}) == CostOver(p, t, done) + ModelPriceOf(p, t, m) <= CostOver(p, t, t.input.Keys)
    ensures TokensOver(t, done + {m}) == TokensOver(t, done) + ModelTokens(t, m) <= TokensOver(t, t.input.Keys)
  {
    hide ModelPriceOf, ModelTokens;
    CostOverAt(p, t, done + {m}, m);
    TokensOverAt(t, done + {m}, m);
    assert done + {m} - {m} == done;
    OverGrows(p, t, done + {m}, t.input.Keys);
  }

  lemma {:induction false} OverGrows(p: Pricing, t: SideTotals, a: set<string>, b: set<string>)
    requires a <= b
    ensures CostOver(p, t, a) <= CostOver(p, t, b) && TokensOver(t, a) <= TokensOver(t, b)
    decreases |b - a|
  {
    hide ModelPriceOf, ModelTokens;
    if b - a != {} {
      var m :| m in b - a;
      CostOverAt(p, t, a + {m}, m);
      TokensOverAt(t, a + {m}, m);
      assert a + {m} - {m} == a;
      assert b - (a + {m}) == b - a - {m};
      OverGrows(p, t, a + {m}, b);
    } else {
      forall x | x in b ensures x in a {
        assert x !in b - a;
      }
      assert a == b;
    }
  }

  lemma NothingOver(p: Pricing, t: SideTotals)
    ensures CostOver(p, t, {}) == 0 && TokensOver(t, {}) == 0
  {
  }

  class CostSide {
    var runs: U64
    var tokenObservations: U64
    var withoutTokens: U64
    var input: map<string, U64>
    var output: map<string, U64>
    var unpaid: U64
    var unsplit: U64

    ghost function State(): SideTotals
      reads this
    {
      SideTotals(runs, tokenObservations, withoutTokens, input, output, unpaid, unsplit)
    }

    constructor ()
      ensures State() == NO_TOTALS
    {
      runs, tokenObservations, withoutTokens, unpaid, unsplit := 0, 0, 0, 0, 0;
      input, output := map[], map[];
    }

    /** addCost on one counter, in place. */
    method AddEntryInPlace(models: set<string>, e: BehaviorEntry) returns (ok: bool)
      modifies this
      ensures ok <==> AddEntry(old(State()), models, e).Some?
      ensures ok ==> State() == AddEntry(old(State()), models, e).value
    {
      var t := e.operational.tokens;
      if tokenObservations > MAX_UINT64 - t.observed {
        return false;
      }
      tokenObservations := tokenObservations + t.observed;
      if withoutTokens > MAX_UINT64 - t.unobserved {
        return false;
      }
      withoutTokens := withoutTokens + t.unobserved;
      if t.observed == 0 {
        return true;
      }
      if unsplit > MAX_UINT64 - t.unsplit {
        return false;
      }
      unsplit := unsplit + t.unsplit;
      var model := e.behavior.operationName;
      if model !in models {
        if unpaid > MAX_UINT64 - t.input {
          return false;
        }
        unpaid := unpaid + t.input;
        if unpaid > MAX_UINT64 - t.output {
          return false;
        }
        unpaid := unpaid + t.output;
        return true;
      }
      var into, out := At(input, model), At(output, model);
      if into > MAX_UINT64 - t.input {
        return false;
      }
      if out > MAX_UINT64 - t.output {
        return false;
      }
      input := input[model := into + t.input];
      output := output[model := out + t.output];
      ok := true;
    }

    /** Folds one run in; it refuses exactly when some total over everything folded so far no longer fits. */
    method AddRun(models: set<string>, entries: seq<BehaviorEntry>, ghost all: seq<BehaviorEntry>) returns (ok: bool)
      requires Accounts(State(), models, all)
      modifies this
      ensures ok <==> TotalsFit(models, all + entries)
      ensures ok ==> Accounts(State(), models, all + entries) && runs == IncrementIf(old(runs), exists e :: e in entries && Reports(e))
    {
      hide Accounts, TotalsFit, AddEntry;
      var observed := false;
      assert all + entries[..0] == all;
      for i := 0 to |entries|
        invariant Accounts(State(), models, all + entries[..i]) && runs == old(runs)
        invariant observed <==> exists k :: 0 <= k < i && Reports(entries[k])
      {
        AddEntryAccounts(State(), models, all + entries[..i], entries[i]);
        assert all + entries[..i + 1] == (all + entries[..i]) + [entries[i]];
        assert all + entries == (all + entries[..i + 1]) + entries[i + 1..];
        var added := AddEntryInPlace(models, entries[i]);
        if !added {
          if TotalsFit(models, all + entries) {
            FitsBefore(models, all + entries[..i + 1], entries[i + 1..]);
          }
          return false;
        }
        if entries[i].operational.tokens.observed != 0 {
          observed := true;
        }
      }
      assert entries[..|entries|] == entries;
      ghost var counted := State();
      if observed {
        runs := Increment(runs);
      }
      RunsAreApart(counted, State(), models, all + entries);
      ok := true;
    }

    /** Whatever order the map yields its models in, the side is priced exactly, and refused exactly when a figure does
        not fit 64 bits. */
    method Evidence(p: Pricing) returns (r: Option<CostEvidence>)
      requires input.Keys <= p.Keys
      ensures r == Priced(p, State())
    {
      hide CostOver, TokensOver;
      var t := SideTotals(runs, tokenObservations, withoutTokens, input, output, unpaid, unsplit);
      var unpriced := AddCount(unpaid, unsplit);
      if unpriced.None? {
        return None;
      }
      var ok, cost, tokens := PriceModels(p, t);
      if !ok {
        return None;
      }
      r := Some(CostEvidence(runs, cost, tokens, unpriced.value, tokenObservations, withoutTokens));
    }
  }

  ghost predicate PricedSoFar(p: Pricing, t: SideTotals, left: set<string>, cost: U64, tokens: U64) {
    left <= t.input.Keys && cost == CostOver(p, t, t.input.Keys - left) && tokens == TokensOver(t, t.input.Keys - left)
  }

  lemma NothingPriced(p: Pricing, t: SideTotals)
    ensures PricedSoFar(p, t, t.input.Keys, 0, 0)
  {
    assert t.input.Keys - t.input.Keys == {};
    NothingOver(p, t);
  }

  lemma PricedRefuses(p: Pricing, t: SideTotals, done: set<string>)
    requires done <= t.input.Keys
    ensures CostOver(p, t, done) > MAX_UINT64 || TokensOver(t, done) > MAX_UINT64 ==> Priced(p, t).None?
  {
    OverGrows(p, t, done, t.input.Keys);
  }

  lemma PricedOneMore(p: Pricing, t: SideTotals, left: set<string>, m: string, cost: U64, tokens: U64)
    requires m in left && PricedSoFar(p, t, left, cost, tokens)
    ensures var nextCost, nextTokens := cost + ModelPriceOf(p, t, m), tokens + ModelTokens(t, m);
            if nextCost > MAX_UINT64 || nextTokens > MAX_UINT64 then Priced(p, t).None? else PricedSoFar(p, t, left - {m}, nextCost, nextTokens)
  {
    hide Priced, CostOver, TokensOver, ModelPriceOf, ModelTokens;
    var done := t.input.Keys - left;
    assert done + left == t.input.Keys && t.input.Keys - (left - {m}) == done + {m};
    PartOfOver(p, t, done, left, m);
    PricedRefuses(p, t, done + {m});
  }

  /** One model priced and added to the running figures, or a refusal because a figure of the whole side cannot fit. */
  method PriceModel(p: Pricing, t: SideTotals, ghost left: set<string>, m: string, cost: U64, tokens: U64)
    returns (ok: bool, nextCost: U64, nextTokens: U64)
    requires m in left && m in p && PricedSoFar(p, t, left, cost, tokens)
    ensures ok ==> PricedSoFar(p, t, left - {m}, nextCost, nextTokens)
    ensures !ok ==> Priced(p, t).None?
  {
    nextCost, nextTokens := 0, 0;
    PricedOneMore(p, t, left, m, cost, tokens);
    ModelCostExact(At(t.input, m), p[m].inputMicros, At(t.output, m), p[m].outputMicros);
    hide Priced, PricedSoFar, Price, ModelCost;
    var price := p[m];
    var c := ModelCost(At(t.input, m), price.inputMicros, At(t.output, m), price.outputMicros);
    if c.None? {
      return false, 0, 0;
    }
    var x := AddCount(cost, c.value);
    if x.None? {
      return false, 0, 0;
    }
    var y := AddCount(tokens, At(t.input, m));
    if y.None? {
      return false, 0, 0;
    }
    var z := AddCount(y.value, At(t.output, m));
    if z.None? {
      return false, 0, 0;
    }
    return true, x.value, z.value;
  }

  method PriceModels(p: Pricing, t: SideTotals) returns (ok: bool, cost: U64, tokens: U64)
    requires t.input.Keys <= p.Keys
    ensures ok ==> cost == CostOver(p, t, t.input.Keys) && tokens == TokensOver(t, t.input.Keys)
    ensures !ok ==> Priced(p, t).None?
  {
    hide Priced, CostOver, TokensOver;
    cost, tokens := 0, 0;
    var left := t.input.Keys;
    NothingPriced(p, t);
    while left != {}
      invariant PricedSoFar(p, t, left, cost, tokens)
      decreases |left|
    {
      var m :| m in left;
      ok, cost, tokens := PriceModel(p, t, left, m, cost, tokens);
      if !ok {
        return false, 0, 0;
      }
      left := left - {m};
    }
    assert t.input.Keys - {} == t.input.Keys;
    ok := true;
  }

  function Flatten(runs: seq<seq<BehaviorEntry>>): seq<BehaviorEntry> {
    if runs == [] then [] else Flatten(runs[..|runs| - 1]) + runs[|runs| - 1]
  }

  ghost predicate RunReports(run: seq<BehaviorEntry>) {
    exists e :: e in run && Reports(e)
  }

  ghost function ReportingRuns(runs: seq<seq<BehaviorEntry>>): U64 {
    if runs == [] then 0 else IncrementIf(ReportingRuns(runs[..|runs| - 1]), RunReports(runs[|runs| - 1]))
  }

  /** One whole side: every run folded in, then priced. */
  method PriceSide(p: Pricing, runs: seq<seq<BehaviorEntry>>) returns (fits: bool, t: SideTotals, r: Option<CostEvidence>)
    ensures fits <==> TotalsFit(p.Keys, Flatten(runs))
    ensures fits ==> Accounts(t, p.Keys, Flatten(runs)) && t.runs == ReportingRuns(runs)
    ensures r == if fits then Priced(p, t) else None
    ensures SidePriced(p, runs, r)
  {
    hide TotalsFit, Priced, Accounts, SidePriced;
    var side := new CostSide();
    NothingAccounts(p.Keys);
    for i := 0 to |runs|
      invariant fresh(side) && Accounts(side.State(), p.Keys, Flatten(runs[..i])) && side.runs == ReportingRuns(runs[..i])
    {
      assert runs[..i + 1][..i] == runs[..i];
      var ok := side.AddRun(p.Keys, runs[i], Flatten(runs[..i]));
      if !ok {
        FlattenPrefix(runs, i + 1);
        ghost var more := FlattenRest(runs, i + 1);
        if TotalsFit(p.Keys, Flatten(runs)) {
          FitsBefore(p.Keys, Flatten(runs[..i + 1]), more);
        }
        RefusedRightly(p, runs);
        return false, NO_TOTALS, None;
      }
    }
    assert runs[..|runs|] == runs;
    t := SideTotals(side.runs, side.tokenObservations, side.withoutTokens, side.input, side.output, side.unpaid, side.unsplit);
    RunsAreApart(t, t, p.Keys, Flatten(runs));
    AccountsKeys(t, p.Keys, Flatten(runs));
    r := side.Evidence(p);
    PricedRightly(p, runs, t);
    fits := true;
  }

  lemma NothingAccounts(models: set<string>)
    ensures Accounts(NO_TOTALS, models, Flatten([]))
  {
  }

  lemma AccountsKeys(t: SideTotals, models: set<string>, all: seq<BehaviorEntry>)
    requires Accounts(t, models, all)
    ensures t.input.Keys <= models
  {
    hide SumBy;
  }

  ghost function FlattenRest(runs: seq<seq<BehaviorEntry>>, n: nat): seq<BehaviorEntry>
    requires n <= |runs|
    decreases |runs|
  {
    if n == |runs| then [] else FlattenRest(runs[..|runs| - 1], n) + runs[|runs| - 1]
  }

  lemma {:induction false} FlattenPrefix(runs: seq<seq<BehaviorEntry>>, n: nat)
    requires n <= |runs|
    ensures Flatten(runs) == Flatten(runs[..n]) + FlattenRest(runs, n)
    decreases |runs|
  {
    if n == |runs| {
      assert runs[..n] == runs;
    } else {
      var init := runs[..|runs| - 1];
      assert init[..n] == runs[..n];
      FlattenPrefix(init, n);
    }
  }

  // ---- Order and conservation ---------------------------------------------------------------------------------

  lemma TotalsIgnoreOrder(models: set<string>, a: seq<BehaviorEntry>, b: seq<BehaviorEntry>)
    requires multiset(a) == multiset(b)
    ensures TotalsFit(models, a) <==> TotalsFit(models, b)
    ensures forall t :: Accounts(t, models, a) <==> Accounts(t, models, b)
  {
    hide SumBy;
    SumByIgnoresOrder(SaidTokens, a, b);
    SumByIgnoresOrder(SaidNoTokens, a, b);
    SumByIgnoresOrder(Unsplit, a, b);
    SumByIgnoresOrder(Unpaid(models), a, b);
    forall m ensures SumBy(InputTo(models, m), a) == SumBy(InputTo(models, m), b) && SumBy(OutputTo(models, m), a) == SumBy(OutputTo(models, m), b) {
      SumByIgnoresOrder(InputTo(models, m), a, b);
      SumByIgnoresOrder(OutputTo(models, m), a, b);
    }
  }

  /** The counters agree model by model. */
  lemma AccountsAgree(t: SideTotals, u: SideTotals, models: set<string>, all: seq<BehaviorEntry>)
    requires Accounts(t, models, all) && Accounts(u, models, all) && t.runs == u.runs
    ensures t.tokenObservations == u.tokenObservations && t.withoutTokens == u.withoutTokens && t.unpaid == u.unpaid && t.unsplit == u.unsplit
    ensures forall m | m in models :: At(t.input, m) == At(u.input, m) && At(t.output, m) == At(u.output, m)
  {
    hide SumBy;
  }

  lemma {:induction false} OverModels(p: Pricing, t: SideTotals, keys: set<string>, models: set<string>)
    requires t.input.Keys == t.output.Keys == keys <= models
    ensures CostOver(p, t, keys) == CostOver(p, t, models) && TokensOver(t, keys) == TokensOver(t, models)
    decreases |models - keys|
  {
    hide CostOver, TokensOver, ModelPriceOf, ModelTokens;
    if models - keys != {} {
      var m :| m in models - keys;
      assert (models - {m}) - keys == models - keys - {m};
      OverModels(p, t, keys, models - {m});
      CostOverAt(p, t, models, m);
      TokensOverAt(t, models, m);
      NothingCostsNothing(p, t, m);
    } else {
      forall x | x in models ensures x in keys {
        assert x !in models - keys;
      }
      assert models == keys;
    }
  }

  lemma NothingCostsNothing(p: Pricing, t: SideTotals, m: string)
    requires m !in t.input && m !in t.output
    ensures ModelPriceOf(p, t, m) == 0 && ModelTokens(t, m) == 0
  {
  }

  lemma {:induction false} OverAgrees(p: Pricing, t: SideTotals, u: SideTotals, models: set<string>)
    requires forall m | m in models :: At(t.input, m) == At(u.input, m) && At(t.output, m) == At(u.output, m)
    ensures CostOver(p, t, models) == CostOver(p, u, models) && TokensOver(t, models) == TokensOver(u, models)
    decreases |models|
  {
    if models != {} {
      var m :| m in models;
      CostOverAt(p, t, models, m);
      CostOverAt(p, u, models, m);
      TokensOverAt(t, models, m);
      TokensOverAt(u, models, m);
      OverAgrees(p, t, u, models - {m});
    }
  }

  /** A side's cost, its token totals and whether pricing it errs at all are the same in whatever order its entries were
      folded in and its models priced. */
  lemma PricingIgnoresOrder(p: Pricing, t: SideTotals, u: SideTotals, a: seq<BehaviorEntry>, b: seq<BehaviorEntry>)
    requires multiset(a) == multiset(b) && t.runs == u.runs
    requires Accounts(t, p.Keys, a) && Accounts(u, p.Keys, b)
    ensures TotalsFit(p.Keys, a) <==> TotalsFit(p.Keys, b)
    ensures Priced(p, t) == Priced(p, u)
  {
    hide Accounts, TotalsFit, CostOver, TokensOver;
    TotalsIgnoreOrder(p.Keys, a, b);
    AccountsAgree(t, u, p.Keys, a);
    AccountsSlots(t, p.Keys, a);
    AccountsSlots(u, p.Keys, b);
    OverModels(p, t, t.input.Keys, p.Keys);
    OverModels(p, u, u.input.Keys, p.Keys);
    OverAgrees(p, t, u, p.Keys);
  }

  lemma AccountsSlots(t: SideTotals, models: set<string>, all: seq<BehaviorEntry>)
    requires Accounts(t, models, all)
    ensures t.input.Keys == t.output.Keys <= models
  {
    hide SumBy;
  }

  /** Priced tokens by the entries, model by model. */
  ghost function InAndOut(models: set<string>, over: set<string>, all: seq<BehaviorEntry>): nat
    decreases |over|
  {
    if over == {} then 0
    else
      var m :| m in over;
      SumBy(InputTo(models, m), all) + SumBy(OutputTo(models, m), all) + InAndOut(models, over - {m}, all)
  }

  lemma {:induction false} InAndOutAt(models: set<string>, over: set<string>, all: seq<BehaviorEntry>, m: string)
    requires m in over
    ensures InAndOut(models, over, all) ==
            SumBy(InputTo(models, m), all) + SumBy(OutputTo(models, m), all) + InAndOut(models, over - {m}, all)
    decreases |over|
  {
    hide SumBy, InputTo, OutputTo;
    var k :| k in over && InAndOut(models, over, all) ==
                          SumBy(InputTo(models, k), all) + SumBy(OutputTo(models, k), all) + InAndOut(models, over - {k}, all);
    if k != m {
      InAndOutAt(models, over - {k}, all, m);
      InAndOutAt(models, over - {m}, all, k);
      assert over - {k} - {m} == over - {m} - {k};
    }
  }

  lemma {:induction false} InAndOutSnoc(models: set<string>, over: set<string>, all: seq<BehaviorEntry>, e: BehaviorEntry)
    requires over <= models
    ensures InAndOut(models, over, all + [e]) == InAndOut(models, over, all)
              + (if Reports(e) && e.behavior.operationName in over then TokensOf(e).input + TokensOf(e).output else 0)
    decreases |over|
  {
    hide SumBy;
    if over != {} {
      var m :| m in over;
      InAndOutAt(models, over, all, m);
      InAndOutAt(models, over, all + [e], m);
      SumsSnoc(models, all, e);
      InAndOutSnoc(models, over - {m}, all, e);
      assert InputTo(models, m)(e) == if Reports(e) && e.behavior.operationName == m then TokensOf(e).input else 0;
      assert OutputTo(models, m)(e) == if Reports(e) && e.behavior.operationName == m then TokensOf(e).output else 0;
    }
  }

  lemma {:induction false} NothingInAndOut(models: set<string>, over: set<string>, none: seq<BehaviorEntry>)
    requires |none| == 0
    ensures InAndOut(models, over, none) == 0
    decreases |over|
  {
    if over != {} {
      var m :| m in over;
      InAndOutAt(models, over, none, m);
      NothingInAndOut(models, over - {m}, none);
    }
  }

  lemma {:induction false} ReportedIsSplit(models: set<string>, all: seq<BehaviorEntry>)
    ensures SumBy(Reported, all) == InAndOut(models, models, all) + SumBy(Unpaid(models), all) + SumBy(Unsplit, all)
  {
    if all == [] {
      NothingInAndOut(models, models, all);
    } else {
      hide SumBy;
      var init, e := all[..|all| - 1], all[|all| - 1];
      assert all == init + [e];
      ReportedIsSplit(models, init);
      InAndOutSnoc(models, models, init, e);
      SumsSnoc(models, init, e);
      SumBySnoc(Reported, init, e);
    }
  }

  lemma {:induction false} TokensAreInAndOut(t: SideTotals, models: set<string>, over: set<string>, all: seq<BehaviorEntry>)
    requires Accounts(t, models, all) && over <= models
    ensures TokensOver(t, over) == InAndOut(models, over, all)
    decreases |over|
  {
    hide SumBy, InputTo, OutputTo;
    if over != {} {
      var m :| m in over;
      TokensOverAt(t, over, m);
      InAndOutAt(models, over, all, m);
      TokensAreInAndOut(t, models, over - {m}, all);
    }
  }

  /** Nothing a run reported is lost or counted twice: priced and unpriced tokens together are all of them. */
  lemma PricedAndUnpricedAreAll(p: Pricing, t: SideTotals, all: seq<BehaviorEntry>)
    requires Accounts(t, p.Keys, all) && Priced(p, t).Some?
    ensures Priced(p, t).value.pricedTokens + Priced(p, t).value.unpricedTokens == SumBy(Reported, all)
  {
    hide SumBy, CostOver, TokensOver, InAndOut;
    AccountsSlots(t, p.Keys, all);
    OverModels(p, t, t.input.Keys, p.Keys);
    TokensAreInAndOut(t, p.Keys, p.Keys, all);
    ReportedIsSplit(p.Keys, all);
  }

  // ---- A side's figures over its entries ----------------------------------------------------------------------

  /** The input and output tokens reported of a model. */
  function ModelInput(all: seq<BehaviorEntry>, m: string): nat {
    if all == [] then 0
    else
      var e := all[|all| - 1];
      ModelInput(all[..|all| - 1], m)
      + (if e.operational.tokens.observed != 0 && e.behavior.operationName == m then e.operational.tokens.input else 0)
  }

  function ModelOutput(all: seq<BehaviorEntry>, m: string): nat {
    if all == [] then 0
    else
      var e := all[|all| - 1];
      ModelOutput(all[..|all| - 1], m)
      + (if e.operational.tokens.observed != 0 && e.behavior.operationName == m then e.operational.tokens.output else 0)
  }

  /** What some models' tokens cost: each model's floored on its own. */
  ghost function CostOfModels(p: Pricing, all: seq<BehaviorEntry>, models: set<string>): nat
    requires models <= p.Keys
    decreases |models|
  {
    if models == {} then 0
    else
      var m :| m in models;
      (ModelInput(all, m) * p[m].inputMicros + ModelOutput(all, m) * p[m].outputMicros) / 1_000_000 + CostOfModels(p, all, models - {m})
  }

  /** Input and output tokens of models with a price. */
  function PricedTotal(p: Pricing, all: seq<BehaviorEntry>): nat {
    if all == [] then 0
    else
      var e := all[|all| - 1];
      PricedTotal(p, all[..|all| - 1])
      + (if e.operational.tokens.observed != 0 && e.behavior.operationName in p
         then e.operational.tokens.input + e.operational.tokens.output else 0)
  }

  /** Totals reported unsplit, and input and output tokens of models without a price. */
  function UnpricedTotal(p: Pricing, all: seq<BehaviorEntry>): nat {
    if all == [] then 0
    else
      var e := all[|all| - 1];
      UnpricedTotal(p, all[..|all| - 1])
      + (if e.operational.tokens.observed == 0 then 0
         else e.operational.tokens.unsplit
              + (if e.behavior.operationName in p then 0 else e.operational.tokens.input + e.operational.tokens.output))
  }

  function ObservedTotal(all: seq<BehaviorEntry>): nat {
    if all == [] then 0 else ObservedTotal(all[..|all| - 1]) + all[|all| - 1].operational.tokens.observed
  }

  function UnobservedTotal(all: seq<BehaviorEntry>): nat {
    if all == [] then 0 else UnobservedTotal(all[..|all| - 1]) + all[|all| - 1].operational.tokens.unobserved
  }

  /** How many runs have an entry that reported tokens. */
  ghost function RunsReporting(runs: seq<seq<BehaviorEntry>>): nat {
    if runs == [] then 0
    else
      RunsReporting(runs[..|runs| - 1]) + (if exists e :: e in runs[|runs| - 1] && e.operational.tokens.observed != 0 then 1 else 0)
  }

  ghost predicate FiguresFit(p: Pricing, all: seq<BehaviorEntry>) {
    && CostOfModels(p, all, p.Keys) <= MAX_UINT64 && PricedTotal(p, all) <= MAX_UINT64 && UnpricedTotal(p, all) <= MAX_UINT64
    && ObservedTotal(all) <= MAX_UINT64 && UnobservedTotal(all) <= MAX_UINT64
  }

  /** A side is priced if and only if each of its five figures fits 64 bits, and then each is its own total over the entries. */
  ghost predicate SidePriced(p: Pricing, runs: seq<seq<BehaviorEntry>>, r: Option<CostEvidence>) {
    var all := Flatten(runs);
    && (r.Some? <==> FiguresFit(p, all))
    && (r.Some? ==>
          && r.value.costMicros == CostOfModels(p, all, p.Keys) && r.value.pricedTokens == PricedTotal(p, all)
          && r.value.unpricedTokens == UnpricedTotal(p, all)
          && r.value.tokenObservations == ObservedTotal(all) && r.value.observationsWithoutTokens == UnobservedTotal(all)
          && (|runs| <= MAX_UINT64 ==> r.value.runsWithEvidence == RunsReporting(runs)))
  }

  lemma {:induction false} ModelSums(models: set<string>, all: seq<BehaviorEntry>, m: string)
    requires m in models
    ensures SumBy(InputTo(models, m), all) == ModelInput(all, m) && SumBy(OutputTo(models, m), all) == ModelOutput(all, m)
  {
    if all != [] {
      ModelSums(models, all[..|all| - 1], m);
    }
  }

  lemma {:induction false} OtherSums(p: Pricing, all: seq<BehaviorEntry>)
    ensures SumBy(SaidTokens, all) == ObservedTotal(all) && SumBy(SaidNoTokens, all) == UnobservedTotal(all)
    ensures SumBy(Unsplit, all) + SumBy(Unpaid(p.Keys), all) == UnpricedTotal(p, all)
  {
    if all != [] {
      OtherSums(p, all[..|all| - 1]);
    }
  }

  lemma {:induction false} PricedSums(p: Pricing, all: seq<BehaviorEntry>)
    ensures InAndOut(p.Keys, p.Keys, all) == PricedTotal(p, all)
  {
    if all == [] {
      NothingInAndOut(p.Keys, p.Keys, all);
    } else {
      hide InAndOut;
      var init, e := all[..|all| - 1], all[|all| - 1];
      assert all == init + [e];
      PricedSums(p, init);
      InAndOutSnoc(p.Keys, p.Keys, init, e);
    }
  }

  lemma {:induction false} ModelWithinPriced(p: Pricing, all: seq<BehaviorEntry>, m: string)
    requires m in p
    ensures ModelInput(all, m) + ModelOutput(all, m) <= PricedTotal(p, all)
  {
    if all != [] {
      ModelWithinPriced(p, all[..|all| - 1], m);
    }
  }

  lemma {:induction false} CostOfModelsAt(p: Pricing, all: seq<BehaviorEntry>, models: set<string>, m: string)
    requires models <= p.Keys && m in models
    ensures CostOfModels(p, all, models) ==
            (ModelInput(all, m) * p[m].inputMicros + ModelOutput(all, m) * p[m].outputMicros) / 1_000_000 + CostOfModels(p, all, models - {m})
    decreases |models|
  {
    hide ModelInput, ModelOutput;
    var k :| k in models
      && CostOfModels(p, all, models) ==
         (ModelInput(all, k) * p[k].inputMicros + ModelOutput(all, k) * p[k].outputMicros) / 1_000_000 + CostOfModels(p, all, models - {k});
    if k != m {
      CostOfModelsAt(p, all, models - {k}, m);
      CostOfModelsAt(p, all, models - {m}, k);
      assert models - {k} - {m} == models - {m} - {k};
    }
  }

  lemma ModelPriceIs(p: Pricing, t: SideTotals, all: seq<BehaviorEntry>, m: string)
    requires Accounts(t, p.Keys, all) && m in p
    ensures ModelPriceOf(p, t, m) == (ModelInput(all, m) * p[m].inputMicros + ModelOutput(all, m) * p[m].outputMicros) / 1_000_000
  {
    hide SumBy;
    ModelSums(p.Keys, all, m);
  }

  lemma {:induction false} CostOverIs(p: Pricing, t: SideTotals, all: seq<BehaviorEntry>, models: set<string>)
    requires Accounts(t, p.Keys, all) && models <= p.Keys
    ensures CostOver(p, t, models) == CostOfModels(p, all, models)
    decreases |models|
  {
    hide ModelPriceOf, Accounts, ModelInput, ModelOutput;
    if models != {} {
      var m :| m in models;
      CostOverIs(p, t, all, models - {m});
      CostOverAt(p, t, models, m);
      CostOfModelsAt(p, all, models, m);
      ModelPriceIs(p, t, all, m);
    }
  }

  lemma FiguresFitTotals(p: Pricing, all: seq<BehaviorEntry>)
    requires FiguresFit(p, all)
    ensures TotalsFit(p.Keys, all)
  {
    hide SumBy, ModelInput, ModelOutput, CostOfModels, PricedTotal, UnpricedTotal, ObservedTotal, UnobservedTotal;
    OtherSums(p, all);
    forall m | m in p.Keys ensures SumBy(InputTo(p.Keys, m), all) <= MAX_UINT64 && SumBy(OutputTo(p.Keys, m), all) <= MAX_UINT64 {
      ModelSums(p.Keys, all, m);
      ModelWithinPriced(p, all, m);
    }
  }

  lemma AccountsSay(t: SideTotals, models: set<string>, all: seq<BehaviorEntry>)
    requires Accounts(t, models, all)
    ensures t.tokenObservations == SumBy(SaidTokens, all) && t.withoutTokens == SumBy(SaidNoTokens, all)
    ensures t.unsplit == SumBy(Unsplit, all) && t.unpaid == SumBy(Unpaid(models), all)
  {
    hide SumBy;
  }

  lemma PricedFigures(p: Pricing, t: SideTotals, all: seq<BehaviorEntry>)
    requires Accounts(t, p.Keys, all)
    ensures Priced(p, t).Some? <==> FiguresFit(p, all)
    ensures Priced(p, t).Some? ==>
              Priced(p, t).value == CostEvidence(t.runs, CostOfModels(p, all, p.Keys), PricedTotal(p, all), UnpricedTotal(p, all),
                                                 ObservedTotal(all), UnobservedTotal(all))
  {
    hide Accounts, SumBy, CostOver, TokensOver, InAndOut, CostOfModels, PricedTotal, UnpricedTotal, ObservedTotal, UnobservedTotal;
    AccountsSlots(t, p.Keys, all);
    OverModels(p, t, t.input.Keys, p.Keys);
    CostOverIs(p, t, all, p.Keys);
    TokensAreInAndOut(t, p.Keys, p.Keys, all);
    PricedSums(p, all);
    OtherSums(p, all);
    AccountsSay(t, p.Keys, all);
  }

  lemma {:induction false} RunsReportingIs(runs: seq<seq<BehaviorEntry>>)
    ensures |runs| <= MAX_UINT64 ==> ReportingRuns(runs) == RunsReporting(runs) <= |runs|
  {
    if runs != [] {
      RunsReportingIs(runs[..|runs| - 1]);
      assert RunReports(runs[|runs| - 1]) <==> exists e :: e in runs[|runs| - 1] && e.operational.tokens.observed != 0;
    }
  }

  lemma RefusedRightly(p: Pricing, runs: seq<seq<BehaviorEntry>>)
    requires !TotalsFit(p.Keys, Flatten(runs))
    ensures SidePriced(p, runs, None)
  {
    hide TotalsFit, FiguresFit;
    if FiguresFit(p, Flatten(runs)) {
      FiguresFitTotals(p, Flatten(runs));
    }
  }

  lemma PricedRightly(p: Pricing, runs: seq<seq<BehaviorEntry>>, t: SideTotals)
    requires Accounts(t, p.Keys, Flatten(runs)) && t.runs == ReportingRuns(runs)
    ensures SidePriced(p, runs, Priced(p, t))
  {
    hide Accounts, Priced, FiguresFit, ReportingRuns, CostOfModels;
    PricedFigures(p, t, Flatten(runs));
    RunsReportingIs(runs);
  }
}
