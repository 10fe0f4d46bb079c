/** `process_transactions`: one forward pass over the ledger carrying the
    held quantity, the total BRL cost of the holdings and their average
    price, filling in each entry's computed fields. Rates come from a
    stateful source; the tool's is the cached PTAX lookup of `Rates`. */
module Ledger {
  import opened Results
  import opened Calendar
  import opened Entries
  import opened Rates

  /** `TAX_ON_PROFIT_PERCENTAGE`. */
  const TaxOnProfit: real := 0.15

  /** The three running values of the pass. */
  datatype Holdings = Holdings(qty: real, cost: real, avg: real)

  /** The state every pass starts from. */
  const Start := Holdings(0.0, 0.0, 0.0)

  /** The arithmetic of the loop body, one named formula each. */

  /** The BRL cost of `qty` shares at an average price. */
  function HoldingCost(qty: real, avg: real): real {
    qty * avg
  }

  /** A purchase lot in BRL: EUR unit price times quantity times rate. */
  function LotPriceBrl(priceEur: real, qty: real, rate: real): real {
    priceEur * qty * rate
  }

  /** The average price: total cost over total quantity. */
  function Average(cost: real, qty: real): real
    requires qty != 0.0
  {
    cost / qty
  }

  /** The profit of a sale: BRL proceeds minus the shares' cost at the
      average price. */
  function SaleProfit(rate: real, netProceeds: real, qty: real, avg: real): real {
    rate * netProceeds - HoldingCost(qty, avg)
  }

  /** The tax on a profit; negative on a loss, there is no floor. */
  function Tax(profit: real): real {
    profit * TaxOnProfit
  }

  /** A unit price converted to BRL. */
  function UnitPriceBrl(priceEur: real, rate: real): real {
    priceEur * rate
  }

  /** The cost of the holdings is their quantity at the average price. */
  predicate Consistent(h: Holdings) {
    h.cost == HoldingCost(h.qty, h.avg)
  }

  datatype LedgerError =
    | UnsupportedOpType      // ValueError: the entry's op type is neither BUY nor SELL
    | MalformedDate          // TypeError: the date does not split into three parts
    | MissingPriceEur        // TypeError: arithmetic on an absent `price_eur`
    | MissingNetProceeds     // TypeError: arithmetic on an absent `net_proceeds`
    | ZeroHoldings           // ZeroDivisionError: a purchase leaves zero shares held
    | RateFailure(RateError) // the rate lookup failed

  /** The quote each operation reads: `cotacaoCompra` for a purchase,
      `cotacaoVenda` for a sale. */
  function SideFor(op: OpType): Side {
    match op
    case BUY => Buying
    case SELL => Selling
  }

  /** Quantity change of one operation. */
  function Signed(op: OpType, qty: real): real {
    match op
    case BUY => qty
    case SELL => -qty
  }

  /** One iteration of the loop body for an entry of type `op` at exchange
      rate `rate`: the updated entry and the running values after it. A
      purchase fails on a missing EUR price, then on a total of zero shares
      (the division); a sale fails on missing net proceeds, then on a missing
      EUR price. */
  function Settle(h: Holdings, e: Entry, op: OpType, rate: real): (r: Result<(Entry, Holdings), LedgerError>)
    ensures r.Failure? <==>
      || e.priceEur.None?
      || (op == BUY && h.qty + e.qty == 0.0)
      || (op == SELL && e.netProceeds.None?)
    ensures r.Failure? && op == BUY ==> r.error == (if e.priceEur.None? then MissingPriceEur else ZeroHoldings)
    ensures r.Failure? && op == SELL ==> r.error == (if e.netProceeds.None? then MissingNetProceeds else MissingPriceEur)
    ensures r.Success? ==>
      var (e', h') := r.value;
      && SameRaw(e, e')
      && e'.curConvRate == Some(rate)
      && h'.qty == h.qty + Signed(op, e.qty)
      && e'.totalQty == Some(h'.qty)
      && e'.avgPrice == Some(h'.avg)
    ensures r.Success? && op == BUY ==>
      var (e', h') := r.value;
      && e'.priceBrl == Some(LotPriceBrl(e.priceEur.value, e.qty, rate))
      && h'.cost == h.cost + e'.priceBrl.value
      && h'.qty != 0.0 && h'.avg == Average(h'.cost, h'.qty)
      && e'.totalCostBrl == Some(h'.cost)
      && e'.profit == e.profit && e'.tax == e.tax
    ensures r.Success? && op == SELL ==>
      var (e', h') := r.value;
      && h'.avg == h.avg
      && h'.cost == h.cost - HoldingCost(e.qty, h.avg)
      && e'.profit == Some(SaleProfit(rate, e.netProceeds.value, e.qty, h.avg))
      && e'.tax == Some(Tax(e'.profit.value))
      && e'.priceBrl == Some(UnitPriceBrl(e.priceEur.value, rate))
      && e'.totalCostBrl == e.totalCostBrl
  {
    match op
    case BUY =>
      var qty := h.qty + e.qty;
      if e.priceEur.None? then Failure(MissingPriceEur)
      else
        var priceBrl := LotPriceBrl(e.priceEur.value, e.qty, rate);
        var cost := h.cost + priceBrl;
        if qty == 0.0 then Failure(ZeroHoldings)
        else
          var avg := Average(cost, qty);
          var e' := e.(curConvRate := Some(rate), totalQty := Some(qty), priceBrl := Some(priceBrl),
                       totalCostBrl := Some(cost), avgPrice := Some(avg));
          Success((e', Holdings(qty, cost, avg)))
    case SELL =>
      var qty := h.qty - e.qty;
      var cost := h.cost - HoldingCost(e.qty, h.avg);
      if e.netProceeds.None? then Failure(MissingNetProceeds)
      else
        var profit := SaleProfit(rate, e.netProceeds.value, e.qty, h.avg);
        if e.priceEur.None? then Failure(MissingPriceEur)
        else
          var e' := e.(curConvRate := Some(rate), totalQty := Some(qty), profit := Some(profit),
                       avgPrice := Some(h.avg), priceBrl := Some(UnitPriceBrl(e.priceEur.value, rate)),
                       tax := Some(Tax(profit)));
          Success((e', Holdings(qty, cost, h.avg)))
  }

  /** Cost equals quantity times average after every purchase and every
      sale, given that it did before. */
  lemma SettleKeepsConsistent(h: Holdings, e: Entry, op: OpType, rate: real)
    requires Consistent(h) && Settle(h, e, op, rate).Success?
    ensures Consistent(Settle(h, e, op, rate).value.1)
  {
    var h' := Settle(h, e, op, rate).value.1;
    if op == SELL {
      assert h'.cost == h.qty * h.avg - e.qty * h.avg;
      assert h'.qty * h'.avg == (h.qty - e.qty) * h.avg;
    } else {
      assert h'.avg == h'.cost / h'.qty;
    }
  }

  /** The outcome of a pass: the filled-in entries, the running values at
      the end and the rate source's state (the cache) at the end. */
  datatype Pass<S> = Pass(entries: seq<Entry>, holdings: Holdings, state: S)

  /** A rate source: given its state, the date text and the quote wanted,
      a rate and the new state. */
  type RateSource<!S> = (S, DateParts, Side) -> Result<(real, S), RateError>

  /** The per-entry arithmetic of the loop, as `Settle` is. */
  type Transition = (Holdings, Entry, OpType, real) -> Result<(Entry, Holdings), LedgerError>

  /** The loop of `process_transactions` from running values `h`, with the
      per-entry arithmetic `settle` (the tool's is `Settle`): the op type is
      checked first, then the date is split, then the rate is looked up,
      then the entry is settled; the first failure aborts the whole pass. */
  function Walk<S>(settle: Transition, entries: seq<Entry>, h: Holdings, s: S, rate: RateSource<S>): (r: Result<Pass<S>, LedgerError>)
    ensures r.Success? ==> |r.value.entries| == |entries|
    decreases |entries|
  {
    if |entries| == 0 then Success(Pass([], h, s))
    else
      var e := entries[0];
      match e.opType
      case None => Failure(UnsupportedOpType)
      case Some(op) =>
        match DateTuple(e)
        case None => Failure(MalformedDate)
        case Some(parts) =>
          match rate(s, parts, SideFor(op))
          case Failure(err) => Failure(RateFailure(err))
          case Success((x, s')) =>
            match settle(h, e, op, x)
            case Failure(err) => Failure(err)
            case Success((e', h')) =>
              match Walk(settle, entries[1..], h', s', rate)
              case Failure(err) => Failure(err)
              case Success(rest) => Success(Pass([e'] + rest.entries, rest.holdings, rest.state))
  }

  /** The tool's rate source: the cached PTAX lookup of `Rates`. */
  function PtaxSource(oracle: string -> Response, fuel: nat): RateSource<Cache> {
    (c: Cache, p: DateParts, side: Side) => Rate(c, p, side, oracle, fuel)
  }

  /** `process_transactions`: the pass from no holdings, with the cache
      threaded from entry to entry. */
  function ProcessTransactions(entries: seq<Entry>, cache: Cache, oracle: string -> Response, fuel: nat): (r: Result<Pass<Cache>, LedgerError>)
    ensures r.Success? ==> |r.value.entries| == |entries|
  {
    Walk(Settle, entries, Start, cache, PtaxSource(oracle, fuel))
  }

  /** The running values as recorded on an entry the pass produced: its
      quantity, its average, and their product as the cost. */
  function FromEntry(e: Entry): Holdings {
    var q := if e.totalQty.Some? then e.totalQty.value else 0.0;
    var a := if e.avgPrice.Some? then e.avgPrice.value else 0.0;
    Holdings(q, HoldingCost(q, a), a)
  }

  /** The running values before entry `i`: `h` for the first entry,
      otherwise those recorded on entry `i - 1`. */
  function Recorded(h: Holdings, out: seq<Entry>, i: nat): Holdings
    requires i <= |out|
  {
    if i == 0 then h else FromEntry(out[i - 1])
  }

  /** An application of a transition. Facts about transitions are stated on
      this name so that a proof uses them only where it names an application. */
  ghost function Applied(settle: Transition, h: Holdings, e: Entry, op: OpType, x: real): Result<(Entry, Holdings), LedgerError> {
    settle(h, e, op, x)
  }

  /** A transition that, from consistent running values, writes the new
      running values onto the entry it returns and keeps them consistent. */
  ghost predicate Records(settle: Transition) {
    forall h, e, op, x {:trigger Applied(settle, h, e, op, x)} ::
      Consistent(h) && Applied(settle, h, e, op, x).Success? ==>
        && FromEntry(Applied(settle, h, e, op, x).value.0) == Applied(settle, h, e, op, x).value.1
        && Consistent(Applied(settle, h, e, op, x).value.1)
  }

  /** A transition that keeps the raw fields, stores the rate and records
      the quantity after the operation. */
  ghost predicate Tracks(settle: Transition) {
    forall h, e, op, x {:trigger Applied(settle, h, e, op, x)} ::
      Applied(settle, h, e, op, x).Success? ==>
        && SameRaw(e, Applied(settle, h, e, op, x).value.0)
        && Applied(settle, h, e, op, x).value.0.curConvRate == Some(x)
        && Applied(settle, h, e, op, x).value.0.totalQty == Some(h.qty + Signed(op, e.qty))
        && Applied(settle, h, e, op, x).value.0.avgPrice.Some?
  }

  /** A transition that settles a sale at the average price held before it. */
  ghost predicate SellsAtAverage(settle: Transition) {
    forall h, e, op, x {:trigger Applied(settle, h, e, op, x)} ::
      op == SELL && Applied(settle, h, e, op, x).Success? ==>
        var e' := Applied(settle, h, e, op, x).value.0;
        && e.netProceeds.Some? && e.priceEur.Some?
        && e'.avgPrice == Some(h.avg)
        && e'.profit == Some(SaleProfit(x, e.netProceeds.value, e.qty, h.avg))
        && e'.tax == Some(Tax(e'.profit.value))
        && e'.priceBrl == Some(UnitPriceBrl(e.priceEur.value, x))
  }

  /** A transition that adds a purchase's BRL lot price to the cost and
      averages the cost over the new quantity. */
  ghost predicate BuysAtCost(settle: Transition) {
    forall h, e, op, x {:trigger Applied(settle, h, e, op, x)} ::
      op == BUY && Applied(settle, h, e, op, x).Success? ==>
        var e' := Applied(settle, h, e, op, x).value.0;
        && e.priceEur.Some?
        && e'.priceBrl == Some(LotPriceBrl(e.priceEur.value, e.qty, x))
        && e'.totalCostBrl == Some(h.cost + e'.priceBrl.value)
        && e'.totalQty.Some? && e'.totalQty.value != 0.0
        && e'.avgPrice == Some(Average(e'.totalCostBrl.value, e'.totalQty.value))
  }

  lemma SettleRecords()
    ensures Records(Settle)
  {
    forall h, e, op, x | Consistent(h) && Applied(Settle, h, e, op, x).Success?
      ensures FromEntry(Applied(Settle, h, e, op, x).value.0) == Applied(Settle, h, e, op, x).value.1
      ensures Consistent(Applied(Settle, h, e, op, x).value.1)
    {
      SettleKeepsConsistent(h, e, op, x);
    }
  }

  lemma SettleTracks()
    ensures Tracks(Settle)
  {
  }

  lemma SettleSellsAtAverage()
    ensures SellsAtAverage(Settle)
  {
  }

  lemma SettleBuysAtCost()
    ensures BuysAtCost(Settle)
  {
  }

  /** One unfolding of a successful pass: the first output entry and the
      running values after it come from the transition at the rate the source
      returned for the first entry's date, the rest from the pass over the
      remaining entries. */
  lemma WalkHead<S>(settle: Transition, entries: seq<Entry>, h: Holdings, s: S, rate: RateSource<S>)
    returns (x: real, h': Holdings, s': S)
    requires |entries| > 0 && Walk(settle, entries, h, s, rate).Success?
    ensures entries[0].opType.Some? && DateTuple(entries[0]).Some?
    ensures rate(s, DateTuple(entries[0]).value, SideFor(entries[0].opType.value)) == Success((x, s'))
    ensures settle(h, entries[0], entries[0].opType.value, x).Success?
    ensures settle(h, entries[0], entries[0].opType.value, x).value.1 == h'
    ensures Walk(settle, entries[1..], h', s', rate).Success?
    ensures var p := Walk(settle, entries, h, s, rate).value;
      var rest := Walk(settle, entries[1..], h', s', rate).value;
      && p.entries == [settle(h, entries[0], entries[0].opType.value, x).value.0] + rest.entries
      && p.holdings == rest.holdings && p.state == rest.state
  {
    var e := entries[0];
    var op := e.opType.value;
    var parts := DateTuple(e).value;
    var r := rate(s, parts, SideFor(op)).value;
    x, s' := r.0, r.1;
    h' := settle(h, e, op, x).value.1;
  }

  /** Recorded running values seen past a first entry that records `h'`. */
  lemma RecordedShift(h: Holdings, h': Holdings, o: Entry, rest: seq<Entry>, i: nat)
    requires FromEntry(o) == h' && 1 <= i <= |rest| + 1
    ensures Recorded(h, [o] + rest, i) == Recorded(h', rest, i - 1)
  {
    if i > 1 {
      assert ([o] + rest)[i - 1] == rest[i - 2];
    }
  }

  /** Each output entry comes from the transition, at the rate in `xs`,
      applied to the running values recorded on the entry before it, and
      yields the running values recorded on itself. */
  ghost predicate StepChain(settle: Transition, h: Holdings, entries: seq<Entry>, out: seq<Entry>, xs: seq<real>) {
    && |out| == |entries| && |xs| == |entries|
    && forall i :: 0 <= i < |entries| ==>
         && entries[i].opType.Some?
         && Applied(settle, Recorded(h, out, i), entries[i], entries[i].opType.value, xs[i])
            == Success((out[i], Recorded(h, out, i + 1)))
  }

  /** A step that records its running values extends a chain at the front. */
  lemma ChainCons(settle: Transition, h: Holdings, h': Holdings, e: Entry, es: seq<Entry>, o: Entry, rest: seq<Entry>, x: real, xs: seq<real>)
    requires e.opType.Some? && FromEntry(o) == h'
    requires Applied(settle, h, e, e.opType.value, x) == Success((o, h'))
    requires StepChain(settle, h', es, rest, xs)
    ensures StepChain(settle, h, [e] + es, [o] + rest, [x] + xs)
  {
    var entries, out := [e] + es, [o] + rest;
    forall i | 0 <= i < |entries|
      ensures entries[i].opType.Some?
      ensures Applied(settle, Recorded(h, out, i), entries[i], entries[i].opType.value, ([x] + xs)[i])
              == Success((out[i], Recorded(h, out, i + 1)))
    {
      RecordedShift(h, h', o, rest, i + 1);
      if i > 0 {
        RecordedShift(h, h', o, rest, i);
        assert entries[i] == es[i - 1] && out[i] == rest[i - 1] && ([x] + xs)[i] == xs[i - 1];
      }
    }
  }

  /** The source, in state `s`, answers rate `x` for the date of entry `e`
      and the quote its op type reads, and moves to state `s'`. */
  ghost predicate Answered<S>(rate: RateSource<S>, e: Entry, s: S, x: real, s': S) {
    && e.opType.Some? && DateTuple(e).Some?
    && rate(s, DateTuple(e).value, SideFor(e.opType.value)) == Success((x, s'))
  }

  /** Each rate in `xs` is the source's answer, in state `ss[i]`, for entry
      `i`, and leaves the source in state `ss[i + 1]`. */
  ghost predicate RateChain<S>(rate: RateSource<S>, entries: seq<Entry>, xs: seq<real>, ss: seq<S>) {
    && |xs| == |entries| && |ss| == |entries| + 1
    && forall i :: 0 <= i < |entries| ==> Answered(rate, entries[i], ss[i], xs[i], ss[i + 1])
  }

  /** A lookup that leaves the source in the first state of a rate chain
      extends that chain at the front. */
  lemma RateCons<S>(rate: RateSource<S>, e: Entry, es: seq<Entry>, x: real, xs: seq<real>, s: S, ss: seq<S>)
    requires RateChain(rate, es, xs, ss)
    requires Answered(rate, e, s, x, ss[0])
    ensures RateChain(rate, [e] + es, [x] + xs, [s] + ss)
  {
    var entries, xs1, ss1 := [e] + es, [x] + xs, [s] + ss;
    forall i | 0 <= i < |entries|
      ensures Answered(rate, entries[i], ss1[i], xs1[i], ss1[i + 1])
    {
      if i > 0 {
        assert entries[i] == es[i - 1] && xs1[i] == xs[i - 1] && ss1[i] == ss[i - 1] && ss1[i + 1] == ss[i];
      }
    }
  }

  /** A successful pass is a chain of steps of its transition, taken at the
      rates the source returned in turn, from the state it started in to the
      state the pass ends with. */
  lemma {:induction false} WalkChain<S>(settle: Transition, entries: seq<Entry>, h: Holdings, s: S, rate: RateSource<S>)
    returns (xs: seq<real>, ss: seq<S>)
    requires Records(settle) && Consistent(h)
    requires Walk(settle, entries, h, s, rate).Success?
    ensures StepChain(settle, h, entries, Walk(settle, entries, h, s, rate).value.entries, xs)
    ensures RateChain(rate, entries, xs, ss)
    ensures ss[0] == s && ss[|entries|] == Walk(settle, entries, h, s, rate).value.state
    decreases |entries|
  {
    if |entries| == 0 {
      xs, ss := [], [s];
    } else {
      var x0, h', s' := WalkHead(settle, entries, h, s, rate);
      var o := Applied(settle, h, entries[0], entries[0].opType.value, x0).value.0;
      var rest := Walk(settle, entries[1..], h', s', rate).value.entries;
      var xs', ss' := WalkChain(settle, entries[1..], h', s', rate);
      ChainCons(settle, h, h', entries[0], entries[1..], o, rest, x0, xs');
      RateCons(rate, entries[0], entries[1..], x0, xs', s, ss');
      assert entries == [entries[0]] + entries[1..];
      xs, ss := [x0] + xs', [s] + ss';
    }
  }

  /** Entry `i` of a successful pass is the transition applied to the
      running values recorded on entry `i - 1` (or to the initial values when
      `i == 0`), at the rate the source returned for entry `i`'s date and the
      quote its op type reads; it yields the running values recorded on entry
      `i`. The source is asked in the state the pass over the entries before
      `i` ends in: the lookups before it have gone through and left it so. */
  lemma {:induction false} WalkStepAt<S>(settle: Transition, entries: seq<Entry>, h: Holdings, s: S, rate: RateSource<S>, i: nat)
    returns (x: real, si: S, si': S)
    requires Records(settle) && Consistent(h)
    requires Walk(settle, entries, h, s, rate).Success?
    requires i < |entries|
    ensures var out := Walk(settle, entries, h, s, rate).value.entries;
      && entries[i].opType.Some?
      && Applied(settle, Recorded(h, out, i), entries[i], entries[i].opType.value, x)
         == Success((out[i], Recorded(h, out, i + 1)))
    ensures DateTuple(entries[i]).Some?
    ensures rate(si, DateTuple(entries[i]).value, SideFor(entries[i].opType.value)) == Success((x, si'))
    ensures Walk(settle, entries[..i], h, s, rate).Success?
    ensures si == Walk(settle, entries[..i], h, s, rate).value.state
    decreases i
  {
    var x0, h', s' := WalkHead(settle, entries, h, s, rate);
    var o := Applied(settle, h, entries[0], entries[0].opType.value, x0).value.0;
    var rest := Walk(settle, entries[1..], h', s', rate).value.entries;
    if i == 0 {
      x, si, si' := x0, s, s';
      RecordedShift(h, h', o, rest, 1);
      assert entries[..0] == [];
    } else {
      x, si, si' := WalkStepAt(settle, entries[1..], h', s', rate, i - 1);
      RecordedShift(h, h', o, rest, i);
      RecordedShift(h, h', o, rest, i + 1);
      assert entries[..i][0] == entries[0];
      assert entries[..i][1..] == entries[1..][..i - 1];
      assert entries[1..][i - 1] == entries[i];
    }
  }

  /** The running values at the end of a successful pass are those recorded
      on its last entry (the initial ones for an empty ledger), and they are
      consistent. */
  lemma {:induction false} WalkFinal<S>(settle: Transition, entries: seq<Entry>, h: Holdings, s: S, rate: RateSource<S>)
    requires Records(settle) && Consistent(h)
    requires Walk(settle, entries, h, s, rate).Success?
    ensures var p := Walk(settle, entries, h, s, rate).value;
      p.holdings == Recorded(h, p.entries, |p.entries|) && Consistent(p.holdings)
    decreases |entries|
  {
    if |entries| > 0 {
      var out := Walk(settle, entries, h, s, rate).value.entries;
      var x, h', s' := WalkHead(settle, entries, h, s, rate);
      var o := Applied(settle, h, entries[0], entries[0].opType.value, x).value.0;
      var rest := Walk(settle, entries[1..], h', s', rate).value.entries;
      assert out == [o] + rest;
      RecordedShift(h, h', o, rest, |rest| + 1);
      WalkFinal(settle, entries[1..], h', s', rate);
    }
  }

  /** Entry `i` keeps its raw fields, stores the rate it was settled at and
      records the running quantity: the one before it plus its quantity on a
      purchase, minus it on a sale. */
  lemma WalkEntryAt<S>(settle: Transition, entries: seq<Entry>, h: Holdings, s: S, rate: RateSource<S>, i: nat)
    requires Records(settle) && Tracks(settle) && Consistent(h)
    requires Walk(settle, entries, h, s, rate).Success?
    requires i < |entries|
    ensures var out := Walk(settle, entries, h, s, rate).value.entries;
      && entries[i].opType.Some?
      && SameRaw(entries[i], out[i])
      && out[i].curConvRate.Some? && out[i].avgPrice.Some?
      && out[i].totalQty == Some(Recorded(h, out, i).qty + Signed(entries[i].opType.value, entries[i].qty))
  {
    var x, si, si' := WalkStepAt(settle, entries, h, s, rate, i);
  }

  /** A sale records the average price from before it, unchanged, and its
      profit, tax and BRL price at that average and at its stored rate. */
  lemma WalkSaleAt<S>(settle: Transition, entries: seq<Entry>, h: Holdings, s: S, rate: RateSource<S>, i: nat)
    requires Records(settle) && Tracks(settle) && SellsAtAverage(settle) && Consistent(h)
    requires Walk(settle, entries, h, s, rate).Success?
    requires i < |entries| && entries[i].opType == Some(SELL)
    ensures var out := Walk(settle, entries, h, s, rate).value.entries;
      var avg := Recorded(h, out, i).avg;
      var e := entries[i];
      && out[i].curConvRate.Some? && e.netProceeds.Some? && e.priceEur.Some?
      && out[i].avgPrice == Some(avg)
      && out[i].profit == Some(SaleProfit(out[i].curConvRate.value, e.netProceeds.value, e.qty, avg))
      && out[i].tax == Some(Tax(out[i].profit.value))
      && out[i].priceBrl == Some(UnitPriceBrl(e.priceEur.value, out[i].curConvRate.value))
  {
    var x, si, si' := WalkStepAt(settle, entries, h, s, rate, i);
  }

  /** A purchase records its BRL lot price at its stored rate, a nonzero
      quantity held, and the new average: total cost over that quantity. */
  lemma WalkPurchaseAt<S>(settle: Transition, entries: seq<Entry>, h: Holdings, s: S, rate: RateSource<S>, i: nat)
    requires Records(settle) && Tracks(settle) && BuysAtCost(settle) && Consistent(h)
    requires Walk(settle, entries, h, s, rate).Success?
    requires i < |entries| && entries[i].opType == Some(BUY)
    ensures var out := Walk(settle, entries, h, s, rate).value.entries;
      var e := entries[i];
      && out[i].curConvRate.Some? && e.priceEur.Some?
      && out[i].priceBrl == Some(LotPriceBrl(e.priceEur.value, e.qty, out[i].curConvRate.value))
      && out[i].totalQty.Some? && out[i].totalQty.value != 0.0
      && out[i].totalCostBrl.Some?
      && out[i].avgPrice == Some(Average(out[i].totalCostBrl.value, out[i].totalQty.value))
  {
    var x, si, si' := WalkStepAt(settle, entries, h, s, rate, i);
  }

  /** The net change in holdings of a run of entries. */
  function NetQty(entries: seq<Entry>): real
    decreases |entries|
  {
    if |entries| == 0 then 0.0
    else
      var last := entries[|entries| - 1];
      NetQty(entries[..|entries| - 1]) + (if last.opType.Some? then Signed(last.opType.value, last.qty) else 0.0)
  }

  /** Every output entry records the quantity before it (as recorded on the
      entry before it) changed by its own operation. */
  ghost predicate QuantityChain(h: Holdings, entries: seq<Entry>, out: seq<Entry>) {
    && |out| == |entries|
    && forall i :: 0 <= i < |entries| ==>
         && entries[i].opType.Some?
         && out[i].totalQty == Some(Recorded(h, out, i).qty + Signed(entries[i].opType.value, entries[i].qty))
  }

  /** Along a quantity chain, the quantity recorded on entry `i` is the
      starting quantity plus the net change of entries `0..i`. */
  lemma {:induction false} ChainSums(h: Holdings, entries: seq<Entry>, out: seq<Entry>, i: nat)
    requires QuantityChain(h, entries, out) && i < |entries|
    ensures out[i].totalQty == Some(h.qty + NetQty(entries[..i + 1]))
    decreases i
  {
    var e := entries[i];
    assert entries[..i + 1][..i] == entries[..i] && entries[..i + 1][i] == e;
    assert NetQty(entries[..i + 1]) == NetQty(entries[..i]) + Signed(e.opType.value, e.qty);
    if i > 0 {
      ChainSums(h, entries, out, i - 1);
    } else {
      assert NetQty(entries[..0]) == 0.0;
    }
  }

  /** After each entry, the quantity recorded on it is the starting quantity
      plus every purchase and minus every sale up to and including it. */
  lemma RunningQuantity<S>(settle: Transition, entries: seq<Entry>, h: Holdings, s: S, rate: RateSource<S>, i: nat)
    requires Records(settle) && Tracks(settle) && Consistent(h)
    requires Walk(settle, entries, h, s, rate).Success?
    requires i < |entries|
    ensures Walk(settle, entries, h, s, rate).value.entries[i].totalQty == Some(h.qty + NetQty(entries[..i + 1]))
  {
    var out := Walk(settle, entries, h, s, rate).value.entries;
    var xs, ss := WalkChain(settle, entries, h, s, rate);
    forall m | 0 <= m < |entries|
      ensures entries[m].opType.Some?
      ensures out[m].totalQty == Some(Recorded(h, out, m).qty + Signed(entries[m].opType.value, entries[m].qty))
    {
      TrackedQuantity(settle, Recorded(h, out, m), entries[m], xs[m], out[m], Recorded(h, out, m + 1));
    }
    ChainSums(h, entries, out, i);
  }

  /** One step of a tracking transition records the quantity before it
      changed by the entry's own operation. */
  lemma TrackedQuantity(settle: Transition, before: Holdings, e: Entry, x: real, o: Entry, after: Holdings)
    requires Tracks(settle)
    requires e.opType.Some? && Applied(settle, before, e, e.opType.value, x) == Success((o, after))
    ensures o.totalQty == Some(before.qty + Signed(e.opType.value, e.qty))
  {
  }

  /** Every sale records the average recorded on the entry before it, and
      every entry records some average. */
  ghost predicate AverageChain(h: Holdings, entries: seq<Entry>, out: seq<Entry>) {
    && |out| == |entries|
    && forall i :: 0 <= i < |entries| ==>
         && out[i].avgPrice.Some?
         && (entries[i].opType == Some(SELL) ==> out[i].avgPrice == Some(Recorded(h, out, i).avg))
  }

  lemma {:induction false} ChainKeepsAverage(h: Holdings, entries: seq<Entry>, out: seq<Entry>, j: nat, k: nat)
    requires AverageChain(h, entries, out)
    requires j < k < |entries|
    requires forall m :: j < m <= k ==> entries[m].opType == Some(SELL)
    ensures out[k].avgPrice == out[j].avgPrice
    decreases k
  {
    assert out[k].avgPrice == Some(FromEntry(out[k - 1]).avg);
    if k > j + 1 {
      ChainKeepsAverage(h, entries, out, j, k - 1);
    }
  }

  /** Sales never move the average price: across a run of sales the average
      recorded on each entry is the one recorded before the run. */
  lemma AverageKeptBySales<S>(settle: Transition, entries: seq<Entry>, h: Holdings, s: S, rate: RateSource<S>, j: nat, k: nat)
    requires Records(settle) && Tracks(settle) && SellsAtAverage(settle) && Consistent(h)
    requires Walk(settle, entries, h, s, rate).Success?
    requires j < k < |entries|
    requires forall m :: j < m <= k ==> entries[m].opType == Some(SELL)
    ensures var out := Walk(settle, entries, h, s, rate).value.entries;
      out[k].avgPrice == out[j].avgPrice
  {
    var out := Walk(settle, entries, h, s, rate).value.entries;
    forall m | 0 <= m < |entries|
      ensures out[m].avgPrice.Some?
      ensures entries[m].opType == Some(SELL) ==> out[m].avgPrice == Some(Recorded(h, out, m).avg)
    {
      WalkEntryAt(settle, entries, h, s, rate, m);
      if entries[m].opType == Some(SELL) {
        WalkSaleAt(settle, entries, h, s, rate, m);
      }
    }
    ChainKeepsAverage(h, entries, out, j, k);
  }

  /** An entry whose op type is neither BUY nor SELL makes the whole pass
      fail, whatever the transition and the rate source; when the entries
      before it go through, the failure is the unsupported op type. */
  lemma {:induction false} UnknownOpTypeFails<S>(settle: Transition, entries: seq<Entry>, h: Holdings, s: S, rate: RateSource<S>, i: nat)
    requires i < |entries| && entries[i].opType.None?
    ensures Walk(settle, entries, h, s, rate).Failure?
    ensures Walk(settle, entries[..i], h, s, rate).Success? ==>
      Walk(settle, entries, h, s, rate) == Failure(UnsupportedOpType)
    decreases i
  {
    var e := entries[0];
    if i > 0 {
      assert entries[..i][0] == e && entries[..i][1..] == entries[1..][..i - 1];
    }
    if i > 0 && e.opType.Some? && DateTuple(e).Some? {
      var r := rate(s, DateTuple(e).value, SideFor(e.opType.value));
      if r.Success? {
        var st := settle(h, e, e.opType.value, r.value.0);
        if st.Success? {
          assert entries[1..][i - 1] == entries[i];
          UnknownOpTypeFails(settle, entries[1..], st.value.1, r.value.1, rate, i - 1);
        }
      }
    }
  }

  /** A transition that gives back its own output when applied again to it
      at the same running values and rate, keeping date and op type. */
  ghost predicate Reapplies(settle: Transition) {
    forall h, e, op, x {:trigger Applied(settle, h, e, op, x)} ::
      Applied(settle, h, e, op, x).Success? ==>
        && Applied(settle, h, e, op, x).value.0.date == e.date
        && Applied(settle, h, e, op, x).value.0.opType == e.opType
        && Applied(settle, h, Applied(settle, h, e, op, x).value.0, op, x) == Applied(settle, h, e, op, x)
  }

  /** Settling an already settled entry again gives it back unchanged. */
  lemma SettleAgain(h: Holdings, e: Entry, op: OpType, x: real)
    requires Settle(h, e, op, x).Success?
    ensures Settle(h, Settle(h, e, op, x).value.0, op, x) == Settle(h, e, op, x)
  {
    match op
    case BUY =>
      var qty := h.qty + e.qty;
      var priceBrl := LotPriceBrl(e.priceEur.value, e.qty, x);
      var cost := h.cost + priceBrl;
      var avg := Average(cost, qty);
      var e' := e.(curConvRate := Some(x), totalQty := Some(qty), priceBrl := Some(priceBrl),
                   totalCostBrl := Some(cost), avgPrice := Some(avg));
      assert Settle(h, e, op, x) == Success((e', Holdings(qty, cost, avg)));
    case SELL =>
      var profit := SaleProfit(x, e.netProceeds.value, e.qty, h.avg);
      var e' := e.(curConvRate := Some(x), totalQty := Some(h.qty - e.qty), profit := Some(profit),
                   avgPrice := Some(h.avg), priceBrl := Some(UnitPriceBrl(e.priceEur.value, x)),
                   tax := Some(Tax(profit)));
      assert Settle(h, e, op, x) == Success((e', Holdings(h.qty - e.qty, h.cost - HoldingCost(e.qty, h.avg), h.avg)));
  }

  lemma SettleReapplies()
    ensures Reapplies(Settle)
  {
    forall h, e, op, x | Applied(Settle, h, e, op, x).Success?
      ensures Applied(Settle, h, Applied(Settle, h, e, op, x).value.0, op, x) == Applied(Settle, h, e, op, x)
    {
      SettleAgain(h, e, op, x);
    }
  }

  /** Reprocessing a processed ledger from the same running values and the
      same rate-source state changes nothing: each entry keeps its date and
      op type, so the source is asked the same question in the same state
      and answers the same rate, and the computed fields are overwritten by
      the same values. */
  lemma {:induction false} WalkIdempotent<S>(settle: Transition, entries: seq<Entry>, h: Holdings, s: S, rate: RateSource<S>)
    requires Reapplies(settle)
    requires Walk(settle, entries, h, s, rate).Success?
    ensures Walk(settle, Walk(settle, entries, h, s, rate).value.entries, h, s, rate) == Walk(settle, entries, h, s, rate)
    decreases |entries|
  {
    var p := Walk(settle, entries, h, s, rate).value;
    if |entries| > 0 {
      var x, h', s' := WalkHead(settle, entries, h, s, rate);
      var e' := Applied(settle, h, entries[0], entries[0].opType.value, x).value.0;
      var rest := Walk(settle, entries[1..], h', s', rate).value;
      WalkIdempotent(settle, entries[1..], h', s', rate);
      assert p.entries[0] == e' && p.entries[1..] == rest.entries;
      assert DateTuple(e') == DateTuple(entries[0]);
    }
  }

  /** `process_transactions` returns the same entries in the same order with
      their raw fields kept and a known op type, each recording the net
      quantity bought minus sold up to it, and ends with consistent running
      values. */
  lemma ProcessTransactionsLedger(entries: seq<Entry>, cache: Cache, oracle: string -> Response, fuel: nat)
    requires ProcessTransactions(entries, cache, oracle, fuel).Success?
    ensures var p := ProcessTransactions(entries, cache, oracle, fuel).value;
      && |p.entries| == |entries|
      && (forall i :: 0 <= i < |entries| ==>
            && entries[i].opType.Some?
            && SameRaw(entries[i], p.entries[i])
            && p.entries[i].totalQty == Some(NetQty(entries[..i + 1])))
      && Consistent(p.holdings)
  {
    var rate := PtaxSource(oracle, fuel);
    var out := Walk(Settle, entries, Start, cache, rate).value.entries;
    SettleRecords();
    SettleTracks();
    forall i | 0 <= i < |entries|
      ensures entries[i].opType.Some? && SameRaw(entries[i], out[i])
      ensures out[i].totalQty == Some(NetQty(entries[..i + 1]))
    {
      WalkEntryAt(Settle, entries, Start, cache, rate, i);
      RunningQuantity(Settle, entries, Start, cache, rate, i);
    }
    WalkFinal(Settle, entries, Start, cache, rate);
  }

  /** What one settled entry records, given the running values before it:
      a sale keeps that average and settles its profit, tax and BRL unit
      price at it and at the entry's rate; a purchase records its BRL lot
      price, the cost before it plus that lot, and an average that makes the
      cost equal quantity times average. */
  ghost predicate SettledAt(before: Holdings, e: Entry, o: Entry) {
    && o.curConvRate.Some?
    && (e.opType == Some(SELL) ==>
          && e.netProceeds.Some? && e.priceEur.Some?
          && o.avgPrice == Some(before.avg)
          && o.profit == Some(SaleProfit(o.curConvRate.value, e.netProceeds.value, e.qty, before.avg))
          && o.tax == Some(Tax(o.profit.value))
          && o.priceBrl == Some(UnitPriceBrl(e.priceEur.value, o.curConvRate.value)))
    && (e.opType == Some(BUY) ==>
          && e.priceEur.Some?
          && o.priceBrl == Some(LotPriceBrl(e.priceEur.value, e.qty, o.curConvRate.value))
          && o.totalCostBrl == Some(before.cost + o.priceBrl.value)
          && o.totalQty.Some? && o.avgPrice.Some?
          && o.totalCostBrl.value == HoldingCost(o.totalQty.value, o.avgPrice.value))
  }

  /** Every step of a chain of `Settle` records what `SettledAt` says. */
  lemma ChainSettles(entries: seq<Entry>, out: seq<Entry>, xs: seq<real>)
    requires StepChain(Settle, Start, entries, out, xs)
    ensures forall i :: 0 <= i < |out| ==> SettledAt(Recorded(Start, out, i), entries[i], out[i])
  {
    forall i | 0 <= i < |out|
      ensures SettledAt(Recorded(Start, out, i), entries[i], out[i])
    {
      SettleStep(Recorded(Start, out, i), entries[i], xs[i], out[i], Recorded(Start, out, i + 1));
    }
  }

  /** One successful `Settle` of an entry stores the rate it was given and
      records what `SettledAt` says. */
  lemma SettleStep(before: Holdings, e: Entry, x: real, o: Entry, after: Holdings)
    requires e.opType.Some? && Applied(Settle, before, e, e.opType.value, x) == Success((o, after))
    ensures o.curConvRate == Some(x)
    ensures SettledAt(before, e, o)
  {
    if e.opType == Some(BUY) {
      BuyCostConsistent(o);
    }
  }

  /** In the tool's pass every entry records what `SettledAt` says, from the
      running values recorded on the entry before it (the start for the
      first): so the cost held before a purchase is the quantity times the
      average recorded there. */
  lemma ProcessTransactionsSettles(entries: seq<Entry>, cache: Cache, oracle: string -> Response, fuel: nat)
    requires ProcessTransactions(entries, cache, oracle, fuel).Success?
    ensures var out := ProcessTransactions(entries, cache, oracle, fuel).value.entries;
      forall i :: 0 <= i < |out| ==> SettledAt(Recorded(Start, out, i), entries[i], out[i])
  {
    var rate := PtaxSource(oracle, fuel);
    var out := Walk(Settle, entries, Start, cache, rate).value.entries;
    SettleRecords();
    var xs, ss := WalkChain(Settle, entries, Start, cache, rate);
    ChainSettles(entries, out, xs);
  }

  /** In the tool's pass entry `i` stores the rate `Rate` returns for the
      entry's own date: the buying quote for a purchase, the selling quote
      for a sale. Each lookup sees the cache the lookups before it left,
      starting from the cache passed in, and the pass ends with the cache
      the last lookup left. */
  lemma ProcessTransactionsRates(entries: seq<Entry>, cache: Cache, oracle: string -> Response, fuel: nat)
    returns (cs: seq<Cache>)
    requires ProcessTransactions(entries, cache, oracle, fuel).Success?
    ensures var p := ProcessTransactions(entries, cache, oracle, fuel).value;
      && |cs| == |entries| + 1 && cs[0] == cache && cs[|entries|] == p.state
      && forall i :: 0 <= i < |entries| ==>
           && entries[i].opType.Some? && DateTuple(entries[i]).Some?
           && p.entries[i].curConvRate.Some?
           && Rate(cs[i], DateTuple(entries[i]).value, SideFor(entries[i].opType.value), oracle, fuel)
              == Success((p.entries[i].curConvRate.value, cs[i + 1]))
  {
    var rate := PtaxSource(oracle, fuel);
    var out := Walk(Settle, entries, Start, cache, rate).value.entries;
    SettleRecords();
    SettleTracks();
    var xs, ss := WalkChain(Settle, entries, Start, cache, rate);
    cs := ss;
    forall i | 0 <= i < |entries|
      ensures entries[i].opType.Some? && DateTuple(entries[i]).Some?
      ensures out[i].curConvRate == Some(xs[i])
      ensures Rate(cs[i], DateTuple(entries[i]).value, SideFor(entries[i].opType.value), oracle, fuel) == Success((xs[i], cs[i + 1]))
    {
      SettleStoresRate(Recorded(Start, out, i), entries[i], xs[i], out[i], Recorded(Start, out, i + 1));
      assert Answered(rate, entries[i], ss[i], xs[i], ss[i + 1]);
      PtaxAnswer(oracle, fuel, ss[i], DateTuple(entries[i]).value, SideFor(entries[i].opType.value), xs[i], ss[i + 1]);
    }
  }

  /** A successful `Settle` stores the rate it was given. */
  lemma SettleStoresRate(before: Holdings, e: Entry, x: real, o: Entry, after: Holdings)
    requires e.opType.Some? && Applied(Settle, before, e, e.opType.value, x) == Success((o, after))
    ensures o.curConvRate == Some(x)
  {
  }

  /** An answer of the tool's rate source is an answer of `Rate`. */
  lemma PtaxAnswer(oracle: string -> Response, fuel: nat, c: Cache, p: DateParts, side: Side, x: real, c': Cache)
    requires PtaxSource(oracle, fuel)(c, p, side) == Success((x, c'))
    ensures Rate(c, p, side, oracle, fuel) == Success((x, c'))
  {
  }

  /** A purchase's recorded cost is its recorded quantity at its recorded
      average, the average being that cost over that quantity. */
  lemma BuyCostConsistent(o: Entry)
    requires o.totalCostBrl.Some? && o.totalQty.Some? && o.totalQty.value != 0.0
    requires o.avgPrice == Some(Average(o.totalCostBrl.value, o.totalQty.value))
    ensures o.totalCostBrl.value == HoldingCost(o.totalQty.value, o.avgPrice.value)
  {
    var c, q := o.totalCostBrl.value, o.totalQty.value;
    assert c / q * q == c;
  }

  /** `process_transactions` run again over its own output, from the same
      PTAX cache, returns the same entries, running values and cache. */
  lemma ReprocessingIsIdempotent(entries: seq<Entry>, cache: Cache, oracle: string -> Response, fuel: nat)
    requires ProcessTransactions(entries, cache, oracle, fuel).Success?
    ensures ProcessTransactions(ProcessTransactions(entries, cache, oracle, fuel).value.entries, cache, oracle, fuel)
            == ProcessTransactions(entries, cache, oracle, fuel)
  {
    SettleReapplies();
    WalkIdempotent(Settle, entries, Start, cache, PtaxSource(oracle, fuel));
  }

  /** A raw ledger entry as built from a report, all computed fields empty. */
  function RawEntry(date: string, op: OpType, qty: real, priceEur: real, netProceeds: Option<real>): Entry {
    Entry(date, Some(op), qty, None, None, None, None, Some(priceEur), None, netProceeds, None, None, None)
  }

  /** A worked ledger: buy 10 shares at 20 EUR at rate 5 (a lot of 1000 BRL,
      average 100), then sell 4 for 76 EUR net at rate 5.2: profit
      5.2 * 76 - 4 * 100 = -4.8, tax -0.72 (a loss is taxed negatively), 6
      shares left at the same average. */
  lemma WorkedExample()
    ensures var buy := RawEntry("2024-01-10", BUY, 10.0, 20.0, None);
      var sell := RawEntry("2024-02-15", SELL, 4.0, 19.5, Some(76.0));
      var r1 := Settle(Start, buy, BUY, 5.0);
      && r1.Success?
      && r1.value.1 == Holdings(10.0, 1000.0, 100.0)
      && r1.value.0.priceBrl == Some(1000.0) && r1.value.0.avgPrice == Some(100.0)
      && var r2 := Settle(r1.value.1, sell, SELL, 5.2);
      && r2.Success?
      && r2.value.0.profit == Some(-4.8) && r2.value.0.tax == Some(-0.72)
      && r2.value.0.totalQty == Some(6.0) && r2.value.0.avgPrice == Some(100.0)
      && r2.value.1 == Holdings(6.0, 600.0, 100.0)
  {
  }
}
