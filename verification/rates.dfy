/** The EUR quotation lookup: a process-wide cache of PTAX responses keyed by
    `M-D-Y` text, and on a miss a walk backwards one calendar day at a time
    until the rate service answers with at least one quote. The service is
    an abstract oracle from the date key to the `value` list it returns. */
module Rates {
  import opened Results
  import opened Text
  import opened Calendar

  /** One element of the service's `value` list: `cotacaoCompra` and
      `cotacaoVenda`. */
  datatype Quote = Quote(buying: real, selling: real)

  /** The `value` list of one response; empty on a weekend or holiday. */
  type Response = seq<Quote>

  type Cache = map<string, Response>

  /** Which quote a rate is read from. */
  datatype Side = Buying | Selling

  datatype RateError =
    | InvalidDate      // `yesterday_str` raised: unparsable text, no such day, or before 0001-01-01
    | LookupExhausted  // the fuel ran out before the service answered
    | NoQuote          // the response in hand has no element 0 (IndexError)

  /** The outcome of one lookup: the response used, the cache afterwards and
      the keys sent to the service, in order. */
  datatype Lookup = Lookup(quotes: Response, cache: Cache, queried: seq<string>)

  /** The service's `M-D-Y` date text. */
  function QuoteKey(p: DateParts): string {
    p.month + "-" + p.day + "-" + p.year
  }

  function Last(s: seq<string>): string
    requires |s| > 0
  {
    s[|s| - 1]
  }

  /** The cache after a walk that queried `queried` and ended with `quotes`:
      every key after the first is written (the empty response of the step
      before it), and the last key finally holds `quotes`. */
  ghost predicate CacheWritten(before: Cache, after: Cache, queried: seq<string>, quotes: Response)
    requires |queried| > 0
  {
    && (forall k :: k in after <==> k in before || k in queried[1..] || k == Last(queried))
    && after[Last(queried)] == quotes
    && (forall k :: k in queried[1..] && k != Last(queried) ==> after[k] == [])
    && (forall k :: k in before && k !in queried[1..] && k != Last(queried) ==> after[k] == before[k])
  }

  /** A day step: the text of the previous day, or None where it raises. */
  type DayStep = DateParts -> Option<DateParts>

  /** The `while not done` loop: query the key of `p`; on an empty answer
      step `p` back one day and store that empty answer under the NEW key
      (the one not yet queried), then try again; on an answer store it under
      the key just queried. `back` is the day step (the tool's is
      `yesterday_str`); `fuel` bounds the number of steps back. */
  function Probe(back: DayStep, p: DateParts, cache: Cache, oracle: string -> Response, fuel: nat): (r: Result<Lookup, RateError>)
    ensures r.Success? ==>
      && |r.value.queried| >= 1
      && r.value.queried[0] == QuoteKey(p)
      && |r.value.quotes| > 0
      && r.value.quotes == oracle(Last(r.value.queried))
      && Last(r.value.queried) in r.value.cache
      && r.value.cache[Last(r.value.queried)] == r.value.quotes
    ensures r.Success? ==> forall i :: 0 <= i < |r.value.queried| - 1 ==> oracle(r.value.queried[i]) == []
    ensures r.Failure? ==> r.error != NoQuote
    decreases fuel
  {
    var key := QuoteKey(p);
    var response := oracle(key);
    if |response| > 0 then
      Success(Lookup(response, cache[key := response], [key]))
    else if fuel == 0 then
      Failure(LookupExhausted)
    else match back(p)
      case None => Failure(InvalidDate)
      case Some(q) =>
        match Probe(back, q, cache[QuoteKey(q) := response], oracle, fuel - 1)
        case Failure(e) => Failure(e)
        case Success(rest) => Success(Lookup(rest.quotes, rest.cache, [key] + rest.queried))
  }

  /** Each key the walk sends is the requested day stepped back once more. */
  lemma {:induction false} ProbeTrace(back: DayStep, p: DateParts, cache: Cache, oracle: string -> Response, fuel: nat)
    requires Probe(back, p, cache, oracle, fuel).Success?
    ensures var l := Probe(back, p, cache, oracle, fuel).value;
      forall i :: 0 <= i < |l.queried| ==>
        StepsBack(back, p, i).Some? && l.queried[i] == QuoteKey(StepsBack(back, p, i).value)
    decreases fuel
  {
    var l := Probe(back, p, cache, oracle, fuel).value;
    if |oracle(QuoteKey(p))| == 0 {
      var q := back(p).value;
      var cache1 := cache[QuoteKey(q) := []];
      ProbeTrace(back, q, cache1, oracle, fuel - 1);
      var rest := Probe(back, q, cache1, oracle, fuel - 1).value;
      forall i | 0 <= i < |l.queried|
        ensures StepsBack(back, p, i).Some? && l.queried[i] == QuoteKey(StepsBack(back, p, i).value)
      {
        if i > 0 {
          assert l.queried[i] == rest.queried[i - 1];
          assert StepsBack(back, p, i) == StepsBack(back, q, i - 1);
        }
      }
    }
  }

  /** What the walk leaves in the cache. */
  lemma {:induction false} ProbeCache(back: DayStep, p: DateParts, cache: Cache, oracle: string -> Response, fuel: nat)
    requires Probe(back, p, cache, oracle, fuel).Success?
    ensures var l := Probe(back, p, cache, oracle, fuel).value;
      CacheWritten(cache, l.cache, l.queried, l.quotes)
    decreases fuel
  {
    var l := Probe(back, p, cache, oracle, fuel).value;
    if |oracle(QuoteKey(p))| > 0 {
      assert l.queried == [QuoteKey(p)];
      assert l.queried[1..] == [];
    } else {
      var q := back(p).value;
      var k1 := QuoteKey(q);
      var cache1 := cache[k1 := []];
      ProbeCache(back, q, cache1, oracle, fuel - 1);
      var rest := Probe(back, q, cache1, oracle, fuel - 1).value;
      assert l.cache == rest.cache && l.quotes == rest.quotes;
      assert l.queried[1..] == rest.queried;
      assert rest.queried == [k1] + rest.queried[1..];
      var last := Last(rest.queried);
      assert Last(l.queried) == last;
      forall k
        ensures k in l.cache <==> k in cache || k in l.queried[1..] || k == last
      {
        assert k in rest.queried <==> k == k1 || k in rest.queried[1..];
      }
      forall k | k in l.queried[1..] && k != last
        ensures l.cache[k] == []
      {
        if k !in rest.queried[1..] {
          assert k == k1;
        }
      }
      forall k | k in cache && k !in l.queried[1..] && k != last
        ensures l.cache[k] == cache[k]
      {
        assert k != k1 && k !in rest.queried[1..];
      }
    }
  }

  /** The walk succeeds whenever the service answers for some day at most
      `fuel` steps back. */
  lemma {:induction false} ProbeSucceedsWithinFuel(back: DayStep, p: DateParts, cache: Cache, oracle: string -> Response, fuel: nat, k: nat)
    requires k <= fuel && StepsBack(back, p, k).Some? && |oracle(QuoteKey(StepsBack(back, p, k).value))| > 0
    ensures Probe(back, p, cache, oracle, fuel).Success?
    decreases fuel
  {
    if |oracle(QuoteKey(p))| == 0 {
      assert k > 0;
      var q := back(p).value;
      ProbeSucceedsWithinFuel(back, q, cache[QuoteKey(q) := []], oracle, fuel - 1, k - 1);
    }
  }

  /** With a day step that lowers a positive measure by exactly one, the
      walk never needs more steps than the measure of the requested day:
      given that many it fails only where the step itself does. */
  lemma {:induction false} ProbeWithinMeasure(back: DayStep, m: DateParts -> Option<int>, p: DateParts, cache: Cache, oracle: string -> Response, fuel: nat)
    requires forall x :: m(x).Some? && back(x).Some? ==> m(back(x).value).Some? && m(back(x).value).value == m(x).value - 1
    requires forall x :: m(x).Some? ==> m(x).value >= 1
    requires m(p).Some? && fuel >= m(p).value
    ensures Probe(back, p, cache, oracle, fuel).Failure? ==>
      Probe(back, p, cache, oracle, fuel).error == InvalidDate
    decreases fuel
  {
    if |oracle(QuoteKey(p))| == 0 && back(p).Some? {
      var q := back(p).value;
      ProbeWithinMeasure(back, m, q, cache[QuoteKey(q) := []], oracle, fuel - 1);
    }
  }

  /** `yesterday_str` raises once the walk reaches 0001-01-01, so from a day
      with ordinal `n` the loop sends at most `n` queries: given that many
      steps the walk never runs out of them, and its only failure is that
      raise. */
  lemma ProbeFuelSuffices(p: DateParts, cache: Cache, oracle: string -> Response, fuel: nat)
    requires ParseParts(p).Some? && fuel >= Ordinal(ParseParts(p).value)
    ensures Probe(YesterdayStr, p, cache, oracle, fuel).Failure? ==>
      Probe(YesterdayStr, p, cache, oracle, fuel).error == InvalidDate
  {
    forall x | DayNumber(x).Some? && YesterdayStr(x).Some?
      ensures DayNumber(YesterdayStr(x).value).Some?
      ensures DayNumber(YesterdayStr(x).value).value == DayNumber(x).value - 1
    {
      YesterdayStrIsPreviousDay(x);
    }
    forall x | DayNumber(x).Some?
      ensures DayNumber(x).value >= 1
    {
      OrdinalPositive(ParseParts(x).value);
    }
    ProbeWithinMeasure(YesterdayStr, DayNumber, p, cache, oracle, fuel);
  }

  /** `_get_eur_quotation_data_for_date`: a hit on the requested key returns
      the stored response without calling the service and leaves the cache
      as it is; a miss walks back with `yesterday_str` from the requested
      day and ends with the first non-empty answer, stored under the last key
      sent, with every key after the first holding an empty answer unless it
      is that last key. A failure is never a hit. */
  function FetchQuotes(p: DateParts, cache: Cache, oracle: string -> Response, fuel: nat): (r: Result<Lookup, RateError>)
    ensures QuoteKey(p) in cache ==>
      r.Success? && r.value.quotes == cache[QuoteKey(p)] && r.value.cache == cache
    ensures r.Success? ==> (r.value.queried == [] <==> QuoteKey(p) in cache)
    ensures QuoteKey(p) !in cache && r.Success? ==>
      var l := r.value;
      && |l.queried| >= 1
      && l.queried[0] == QuoteKey(p)
      && |l.quotes| > 0
      && l.quotes == oracle(Last(l.queried))
      && (forall i :: 0 <= i < |l.queried| - 1 ==> oracle(l.queried[i]) == [])
      && CacheWritten(cache, l.cache, l.queried, l.quotes)
    ensures r.Failure? ==> QuoteKey(p) !in cache && r.error != NoQuote
  {
    var key := QuoteKey(p);
    if key in cache then Success(Lookup(cache[key], cache, []))
    else
      var w := Probe(YesterdayStr, p, cache, oracle, fuel);
      if w.Success? then
        ProbeCache(YesterdayStr, p, cache, oracle, fuel);
        w
      else w
  }

  function Column(q: Quote, side: Side): real {
    match side
    case Buying => q.buying
    case Selling => q.selling
  }

  /** `get_price_for_buying_eur_at_date` / `get_price_for_selling_eur_at_date`:
      the chosen quote of element 0 of the response, and the cache after the
      lookup. */
  function Rate(cache: Cache, p: DateParts, side: Side, oracle: string -> Response, fuel: nat): (r: Result<(real, Cache), RateError>)
    ensures QuoteKey(p) in cache && |cache[QuoteKey(p)]| > 0 ==>
      r == Success((Column(cache[QuoteKey(p)][0], side), cache))
    ensures QuoteKey(p) !in cache ==>
      var w := Probe(YesterdayStr, p, cache, oracle, fuel);
      && (r.Success? <==> w.Success?)
      && (r.Success? ==> r.value == (Column(w.value.quotes[0], side), w.value.cache))
    ensures r.Failure? && r.error == NoQuote <==> QuoteKey(p) in cache && cache[QuoteKey(p)] == []
  {
    match FetchQuotes(p, cache, oracle, fuel)
    case Failure(e) => Failure(e)
    case Success(l) =>
      if |l.quotes| == 0 then Failure(NoQuote) else Success((Column(l.quotes[0], side), l.cache))
  }

  /** The walk stops at the first day, stepping back, that the service
      answers for: every day before it was queried and came back empty. */
  lemma ProbeStopsAtFirstAnswer(back: DayStep, p: DateParts, cache: Cache, oracle: string -> Response, fuel: nat)
    returns (n: nat, q: DateParts)
    requires Probe(back, p, cache, oracle, fuel).Success?
    ensures n == |Probe(back, p, cache, oracle, fuel).value.queried| - 1
    ensures StepsBack(back, p, n) == Some(q)
    ensures var l := Probe(back, p, cache, oracle, fuel).value;
      && StepsBack(back, p, n).Some?
      && l.quotes == oracle(QuoteKey(StepsBack(back, p, n).value))
      && (forall j :: 0 <= j < n ==>
            StepsBack(back, p, j).Some? && oracle(QuoteKey(StepsBack(back, p, j).value)) == [])
  {
    var l := Probe(back, p, cache, oracle, fuel).value;
    ProbeTrace(back, p, cache, oracle, fuel);
    n := |l.queried| - 1;
    q := StepsBack(back, p, n).value;
    forall j | 0 <= j < |l.queried| - 1
      ensures StepsBack(back, p, j).Some? && oracle(QuoteKey(StepsBack(back, p, j).value)) == []
    {
      assert l.queried[j] == QuoteKey(StepsBack(back, p, j).value);
    }
  }

  /** With `yesterday_str` as the step, the walk stops at the most recent day
      the service answers for: every later day was queried and came back
      empty, and the day used is exactly `|queried| - 1` days before the
      requested one. */
  lemma ProbeFindsLatestAnsweredDay(p: DateParts, cache: Cache, oracle: string -> Response, fuel: nat)
    requires ParseParts(p).Some?
    requires Probe(YesterdayStr, p, cache, oracle, fuel).Success?
    ensures var l := Probe(YesterdayStr, p, cache, oracle, fuel).value;
      var n := |l.queried| - 1;
      && StepsBack(YesterdayStr, p, n).Some?
      && ParseParts(StepsBack(YesterdayStr, p, n).value).Some?
      && Ordinal(ParseParts(StepsBack(YesterdayStr, p, n).value).value) == Ordinal(ParseParts(p).value) - n
      && l.quotes == oracle(QuoteKey(StepsBack(YesterdayStr, p, n).value))
      && (forall j :: 0 <= j < n ==>
            StepsBack(YesterdayStr, p, j).Some? && oracle(QuoteKey(StepsBack(YesterdayStr, p, j).value)) == [])
  {
    var n, q := ProbeStopsAtFirstAnswer(YesterdayStr, p, cache, oracle, fuel);
    StepsBackOrdinal(p, n);
  }

  /** Keys built from digit-only parts determine the parts. */
  lemma QuoteKeyInjective(p: DateParts, q: DateParts)
    requires AllDigits(p.year) && AllDigits(p.month) && AllDigits(p.day)
    requires AllDigits(q.year) && AllDigits(q.month) && AllDigits(q.day)
    requires QuoteKey(p) == QuoteKey(q)
    ensures p == q
  {
    DigitsHaveNoDash(p.year);
    DigitsHaveNoDash(p.month);
    DigitsHaveNoDash(p.day);
    DigitsHaveNoDash(q.year);
    DigitsHaveNoDash(q.month);
    DigitsHaveNoDash(q.day);
    var ps, qs := [p.month, p.day, p.year], [q.month, q.day, q.year];
    JoinThree(ps, '-');
    JoinThree(qs, '-');
    JoinInjective(ps, qs, '-');
  }

  /** Keys of days a different number of steps back differ. */
  lemma SteppedKeysDiffer(p: DateParts, i: nat, j: nat)
    requires ParseParts(p).Some? && i < j
    requires StepsBack(YesterdayStr, p, i).Some? && StepsBack(YesterdayStr, p, j).Some?
    ensures QuoteKey(StepsBack(YesterdayStr, p, i).value) != QuoteKey(StepsBack(YesterdayStr, p, j).value)
  {
    var a, b := StepsBack(YesterdayStr, p, i).value, StepsBack(YesterdayStr, p, j).value;
    StepsBackOrdinal(p, i);
    StepsBackOrdinal(p, j);
    if QuoteKey(a) == QuoteKey(b) {
      QuoteKeyInjective(a, b);
      assert false;
    }
  }

  /** A key queried after `i >= 1` steps back differs from the requested key. */
  lemma SteppedKeyDiffers(p: DateParts, i: nat)
    requires ParseParts(p).Some? && 1 <= i && StepsBack(YesterdayStr, p, i).Some?
    ensures QuoteKey(StepsBack(YesterdayStr, p, i).value) != QuoteKey(p)
  {
    SteppedKeysDiffer(p, 0, i);
  }

  /** A day the walk stepped over after the requested one is left in the
      cache with an empty response, so a later lookup of that day finds the
      entry and fails on element 0 instead of walking back again. */
  lemma SkippedDayCachedEmpty(p: DateParts, cache: Cache, oracle: string -> Response, fuel: nat, i: nat, side: Side, fuel': nat)
    requires ParseParts(p).Some?
    requires Probe(YesterdayStr, p, cache, oracle, fuel).Success?
    requires 1 <= i < |Probe(YesterdayStr, p, cache, oracle, fuel).value.queried| - 1
    ensures StepsBack(YesterdayStr, p, i).Some?
    ensures Rate(Probe(YesterdayStr, p, cache, oracle, fuel).value.cache, StepsBack(YesterdayStr, p, i).value, side, oracle, fuel')
            == Failure(NoQuote)
  {
    var l := Probe(YesterdayStr, p, cache, oracle, fuel).value;
    var n := |l.queried| - 1;
    ProbeTrace(YesterdayStr, p, cache, oracle, fuel);
    ProbeCache(YesterdayStr, p, cache, oracle, fuel);
    var k := l.queried[i];
    SteppedKeysDiffer(p, i, n);
    assert k == l.queried[1..][i - 1];
    assert k != Last(l.queried);
  }

  /** When the requested day has to be stepped back from, its key is not
      cached afterwards: the response found is stored under the day that
      answered, and the requested key is never written. */
  lemma OriginalKeyNeverCached(p: DateParts, cache: Cache, oracle: string -> Response, fuel: nat)
    requires ParseParts(p).Some?
    requires QuoteKey(p) !in cache
    requires FetchQuotes(p, cache, oracle, fuel).Success?
    requires oracle(QuoteKey(p)) == []
    ensures QuoteKey(p) !in FetchQuotes(p, cache, oracle, fuel).value.cache
  {
    var l := Probe(YesterdayStr, p, cache, oracle, fuel).value;
    ProbeCache(YesterdayStr, p, cache, oracle, fuel);
    ProbeTrace(YesterdayStr, p, cache, oracle, fuel);
    assert |l.queried| >= 2;
    forall i | 1 <= i < |l.queried|
      ensures l.queried[i] != QuoteKey(p)
    {
      SteppedKeyDiffers(p, i);
    }
    assert QuoteKey(p) !in l.queried[1..];
  }
}
