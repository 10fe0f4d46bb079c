/** The ledger entry (`StockTransactionEntry`) and its two enums. */
module Entries {
  import opened Results
  import opened Text
  import opened Calendar

  datatype OpType = BUY | SELL

  datatype CurrencyConversionType = EUR_TO_BRL | BRL_TO_EUR

  /** One purchase or sale plus the fields the ledger walk fills in.
      `opType` is None when a reloaded ledger held a tag `parse_enum` could
      not read; `totalCostBrl` is the attribute the walk attaches to
      purchases only. */
  datatype Entry = Entry(
    date: string,
    opType: Option<OpType>,
    qty: real,
    totalQty: Option<real>,
    curConvRate: Option<real>,
    curConvType: Option<CurrencyConversionType>,
    avgPrice: Option<real>,
    priceEur: Option<real>,
    priceBrl: Option<real>,
    netProceeds: Option<real>,
    profit: Option<real>,
    tax: Option<real>,
    totalCostBrl: Option<real>)

  /** The fields the ledger walk reads and never writes. */
  predicate SameRaw(a: Entry, b: Entry) {
    && a.date == b.date
    && a.opType == b.opType
    && a.qty == b.qty
    && a.priceEur == b.priceEur
    && a.netProceeds == b.netProceeds
    && a.curConvType == b.curConvType
  }

  /** An entry whose computed fields are all still empty. */
  predicate Unprocessed(e: Entry) {
    && e.totalQty.None?
    && e.curConvRate.None?
    && e.avgPrice.None?
    && e.priceBrl.None?
    && e.profit.None?
    && e.tax.None?
    && e.totalCostBrl.None?
  }

  /** The key of `sort_by_date`: the date text, then 0 for a purchase and 1
      for anything else. */
  datatype SortKey = SortKey(date: string, rank: nat)

  function SortByDate(e: Entry): SortKey
  {
    SortKey(e.date, if e.opType == Some(BUY) then 0 else 1)
  }

  /** Python's `<` on the key tuples. */
  predicate KeyLess(a: SortKey, b: SortKey) {
    StrLess(a.date, b.date) || (a.date == b.date && a.rank < b.rank)
  }

  lemma KeyLessIrreflexive(a: SortKey)
    ensures !KeyLess(a, a)
  {
    StrLessIrreflexive(a.date);
  }

  lemma KeyLessTransitive(a: SortKey, b: SortKey, c: SortKey)
    requires KeyLess(a, b) && KeyLess(b, c)
    ensures KeyLess(a, c)
  {
    if StrLess(a.date, b.date) && StrLess(b.date, c.date) {
      StrLessTransitive(a.date, b.date, c.date);
    }
  }

  lemma KeyLessAsymmetric(a: SortKey, b: SortKey)
    ensures !(KeyLess(a, b) && KeyLess(b, a))
  {
    StrLessAsymmetric(a.date, b.date);
    StrLessIrreflexive(a.date);
  }

  lemma KeyLessTotal(a: SortKey, b: SortKey)
    requires a != b
    ensures KeyLess(a, b) || KeyLess(b, a)
  {
    if a.date != b.date {
      StrLessTotal(a.date, b.date);
    }
  }

  /** `get_date_as_tuple` followed by the three-argument call it feeds:
      None where the date does not split on '-' into exactly three parts,
      for then Python raises TypeError at the call. */
  function DateTuple(e: Entry): (r: Option<DateParts>)
    ensures r.Some? ==> r.value.year + "-" + r.value.month + "-" + r.value.day == e.date
  {
    var parts := Split(e.date, '-');
    if |parts| == 3 then
      JoinThree(parts, '-');
      Some(DateParts(parts[0], parts[1], parts[2]))
    else None
  }

  /** The date tuple exists exactly when the date has three '-'-separated
      parts, and then its parts hold no '-' and join back to the date. */
  lemma DateTupleSplits(e: Entry)
    ensures DateTuple(e).Some? <==> |Split(e.date, '-')| == 3
    ensures DateTuple(e).Some? ==>
      var t := DateTuple(e).value;
      && '-' !in t.year && '-' !in t.month && '-' !in t.day
      && t.year + "-" + t.month + "-" + t.day == e.date
  {
    var parts := Split(e.date, '-');
    if |parts| == 3 {
      JoinThree(parts, '-');
    }
  }

  /** An ISO-dated entry splits into the zero-padded parts of its date. */
  lemma DateTupleOfIso(e: Entry, d: Date)
    requires Valid(d) && e.date == Iso(d)
    ensures DateTuple(e) == Some(Format(d))
    ensures ParseParts(DateTuple(e).value) == Some(d)
  {
    IsoSplit(d);
    ParseFormat(d);
  }
}
