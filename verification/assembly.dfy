/** `merge_transactional_data`: one ledger entry per purchase and per sale,
    then Python's stable `list.sort` keyed by `sort_by_date`. */
module Assembly {
  import opened Results
  import opened Text
  import opened Calendar
  import opened Entries

  /** A purchase row from the broker report: date, EUR price, quantity. */
  datatype Purchase = Purchase(date: string, priceEur: real, qty: real)

  /** A sale row from the order spreadsheet: date, execution price,
      quantity, net proceeds. */
  datatype Sale = Sale(date: string, executionPrice: real, qty: real, netProceeds: real)

  /** The BUY entry of a purchase: converted EUR to BRL, nothing computed. */
  function FromPurchase(p: Purchase): Entry {
    Entry(p.date, Some(BUY), p.qty, None, None, Some(EUR_TO_BRL), None, Some(p.priceEur), None, None, None, None, None)
  }

  /** The SELL entry of a sale: converted BRL to EUR, the execution price
      stored as the EUR price, nothing computed. */
  function FromSale(s: Sale): Entry {
    Entry(s.date, Some(SELL), s.qty, None, None, Some(BRL_TO_EUR), None, Some(s.executionPrice), None, Some(s.netProceeds), None, None, None)
  }

  /** The purchase an unprocessed BUY entry was built from. */
  function PurchaseOf(e: Entry): Option<Purchase> {
    if e.opType == Some(BUY) && e.curConvType == Some(EUR_TO_BRL) && e.priceEur.Some?
       && e.netProceeds.None? && Unprocessed(e)
    then Some(Purchase(e.date, e.priceEur.value, e.qty))
    else None
  }

  /** The sale an unprocessed SELL entry was built from. */
  function SaleOf(e: Entry): Option<Sale> {
    if e.opType == Some(SELL) && e.curConvType == Some(BRL_TO_EUR) && e.priceEur.Some?
       && e.netProceeds.Some? && Unprocessed(e)
    then Some(Sale(e.date, e.priceEur.value, e.qty, e.netProceeds.value))
    else None
  }

  /** A purchase entry carries exactly its purchase, tagged BUY and
      EUR_TO_BRL with every computed field empty; it is no sale. */
  lemma PurchaseRoundTrip(p: Purchase)
    ensures PurchaseOf(FromPurchase(p)) == Some(p)
    ensures SaleOf(FromPurchase(p)).None?
  {
  }

  /** A sale entry carries exactly its sale, tagged SELL and BRL_TO_EUR
      with every computed field empty; it is no purchase. */
  lemma SaleRoundTrip(s: Sale)
    ensures SaleOf(FromSale(s)) == Some(s)
    ensures PurchaseOf(FromSale(s)).None?
  {
  }

  /** The registry before sorting: the purchases' entries in order, then
      the sales' entries in order. */
  function Registry(buys: seq<Purchase>, sells: seq<Sale>): (r: seq<Entry>)
    ensures |r| == |buys| + |sells|
    ensures forall i :: 0 <= i < |buys| ==> PurchaseOf(r[i]) == Some(buys[i])
    ensures forall j :: 0 <= j < |sells| ==> SaleOf(r[|buys| + j]) == Some(sells[j])
  {
    seq(|buys|, i requires 0 <= i < |buys| => FromPurchase(buys[i]))
      + seq(|sells|, j requires 0 <= j < |sells| => FromSale(sells[j]))
  }

  /** `a` may precede `b` in the sorted ledger: `b`'s key is not below `a`'s. */
  predicate Ordered(a: Entry, b: Entry) {
    !KeyLess(SortByDate(b), SortByDate(a))
  }

  predicate Sorted(s: seq<Entry>) {
    forall i, j :: 0 <= i < j < |s| ==> Ordered(s[i], s[j])
  }

  /** Inserts `x` into a sorted run after every entry whose key is not above
      its own: the step of a stable insertion sort. */
  function Insert(x: Entry, s: seq<Entry>): (r: seq<Entry>)
    ensures |r| == |s| + 1
    ensures multiset(r) == multiset(s) + multiset{x}
    decreases |s|
  {
    if |s| == 0 then [x]
    else if KeyLess(SortByDate(x), SortByDate(s[0])) then [x] + s
    else
      assert s == [s[0]] + s[1..];
      [s[0]] + Insert(x, s[1..])
  }

  /** `list.sort(key=sort_by_date)`: a stable sort, here by insertion of
      each entry, left to right, into the sorted prefix. */
  function Sort(s: seq<Entry>): (r: seq<Entry>)
    ensures |r| == |s|
    ensures multiset(r) == multiset(s)
    decreases |s|
  {
    if |s| == 0 then []
    else
      assert s == s[..|s| - 1] + [s[|s| - 1]];
      Insert(s[|s| - 1], Sort(s[..|s| - 1]))
  }

  /** `merge_transactional_data(buys, sells, sort)`. */
  function Merge(buys: seq<Purchase>, sells: seq<Sale>, sort: bool): (r: seq<Entry>)
    ensures |r| == |buys| + |sells|
    ensures multiset(r) == multiset(Registry(buys, sells))
    ensures !sort ==> r == Registry(buys, sells)
  {
    if sort then Sort(Registry(buys, sells)) else Registry(buys, sells)
  }

  /** A key below the first entry's is below every later entry's. */
  lemma BelowOrdered(k: SortKey, a: Entry, b: Entry)
    requires KeyLess(k, SortByDate(a)) && Ordered(a, b)
    ensures KeyLess(k, SortByDate(b))
  {
    if SortByDate(a) != SortByDate(b) {
      KeyLessTotal(SortByDate(a), SortByDate(b));
      KeyLessTransitive(k, SortByDate(a), SortByDate(b));
    }
  }

  /** Every entry of the result of `Insert` is `x` or an entry of `s`. */
  lemma InsertMembers(x: Entry, s: seq<Entry>, y: Entry)
    requires y in Insert(x, s)
    ensures y == x || y in s
  {
    assert y in multiset(Insert(x, s));
  }

  /** An entry ordered before every entry of a sorted run can head it. */
  lemma SortedCons(y: Entry, t: seq<Entry>)
    requires Sorted(t)
    requires forall j :: 0 <= j < |t| ==> Ordered(y, t[j])
    ensures Sorted([y] + t)
  {
    var r := [y] + t;
    forall i, j | 0 <= i < j < |r|
      ensures Ordered(r[i], r[j])
    {
      assert r[j] == t[j - 1];
      if i > 0 {
        assert r[i] == t[i - 1];
      }
    }
  }

  /** An entry whose key is below the head of a sorted run is ordered before
      all of it. */
  lemma BelowHead(x: Entry, s: seq<Entry>)
    requires Sorted(s) && |s| > 0 && KeyLess(SortByDate(x), SortByDate(s[0]))
    ensures forall j :: 0 <= j < |s| ==> Ordered(x, s[j])
  {
    forall j | 0 <= j < |s|
      ensures Ordered(x, s[j])
    {
      if j > 0 {
        BelowOrdered(SortByDate(x), s[0], s[j]);
      }
      KeyLessAsymmetric(SortByDate(x), SortByDate(s[j]));
    }
  }

  /** The head of a sorted run is ordered before everything inserting into
      its tail produces, when it is ordered before the inserted entry. */
  lemma HeadBeforeInsert(x: Entry, s: seq<Entry>)
    requires Sorted(s) && |s| > 0 && Ordered(s[0], x)
    ensures forall j :: 0 <= j < |Insert(x, s[1..])| ==> Ordered(s[0], Insert(x, s[1..])[j])
  {
    var t := Insert(x, s[1..]);
    forall j | 0 <= j < |t|
      ensures Ordered(s[0], t[j])
    {
      assert t[j] in t;
      InsertMembers(x, s[1..], t[j]);
      if t[j] != x {
        var m :| 0 <= m < |s[1..]| && s[1..][m] == t[j];
        assert s[m + 1] == t[j];
      }
    }
  }

  lemma {:induction false} InsertSorted(x: Entry, s: seq<Entry>)
    requires Sorted(s)
    ensures Sorted(Insert(x, s))
    decreases |s|
  {
    if |s| == 0 {
    } else if KeyLess(SortByDate(x), SortByDate(s[0])) {
      assert Insert(x, s) == [x] + s;
      BelowHead(x, s);
      SortedCons(x, s);
    } else {
      assert Insert(x, s) == [s[0]] + Insert(x, s[1..]);
      SortedTail(s);
      InsertSorted(x, s[1..]);
      HeadBeforeInsert(x, s);
      SortedCons(s[0], Insert(x, s[1..]));
    }
  }

  /** The sort orders the ledger by `(date, 0 for BUY / 1 otherwise)`. */
  lemma {:induction false} SortSorted(s: seq<Entry>)
    ensures Sorted(Sort(s))
    decreases |s|
  {
    if |s| > 0 {
      SortSorted(s[..|s| - 1]);
      InsertSorted(s[|s| - 1], Sort(s[..|s| - 1]));
    }
  }

  /** The entries of `s` with key `k`, in their order in `s`. */
  function WithKey(s: seq<Entry>, k: SortKey): seq<Entry>
    decreases |s|
  {
    if |s| == 0 then []
    else (if SortByDate(s[0]) == k then [s[0]] else []) + WithKey(s[1..], k)
  }

  lemma {:induction false} WithKeyAppend(a: seq<Entry>, b: seq<Entry>, k: SortKey)
    ensures WithKey(a + b, k) == WithKey(a, k) + WithKey(b, k)
    decreases |a|
  {
    if |a| > 0 {
      assert (a + b)[0] == a[0] && (a + b)[1..] == a[1..] + b;
      WithKeyAppend(a[1..], b, k);
    } else {
      assert a + b == b;
    }
  }

  /** No entry of a run whose keys are all above `k` has key `k`. */
  lemma {:induction false} WithKeyAbove(s: seq<Entry>, k: SortKey)
    requires forall i :: 0 <= i < |s| ==> KeyLess(k, SortByDate(s[i]))
    ensures WithKey(s, k) == []
    decreases |s|
  {
    if |s| > 0 {
      KeyLessIrreflexive(k);
      assert SortByDate(s[0]) != k;
      WithKeyAbove(s[1..], k);
    }
  }

  /** `[x]` when `x` has key `k`, otherwise nothing. */
  function Tag(x: Entry, k: SortKey): seq<Entry> {
    if SortByDate(x) == k then [x] else []
  }

  lemma WithKeySingle(x: Entry, k: SortKey)
    ensures WithKey([x], k) == Tag(x, k)
  {
    assert WithKey([x], k) == Tag(x, k) + WithKey([], k);
  }

  lemma SortedTail(s: seq<Entry>)
    requires Sorted(s) && |s| > 0
    ensures Sorted(s[1..])
  {
    forall i, j | 0 <= i < j < |s[1..]|
      ensures Ordered(s[1..][i], s[1..][j])
    {
      assert s[1..][i] == s[i + 1] && s[1..][j] == s[j + 1];
    }
  }

  /** Inserting `x` in front of a sorted run whose keys are all above its
      own. */
  lemma InsertFrontWithKey(x: Entry, s: seq<Entry>, k: SortKey)
    requires Sorted(s) && |s| > 0 && KeyLess(SortByDate(x), SortByDate(s[0]))
    ensures WithKey([x] + s, k) == WithKey(s, k) + Tag(x, k)
  {
    assert ([x] + s)[1..] == s;
    if SortByDate(x) == k {
      forall i | 0 <= i < |s|
        ensures KeyLess(k, SortByDate(s[i]))
      {
        if i > 0 {
          BelowOrdered(k, s[0], s[i]);
        }
      }
      WithKeyAbove(s, k);
    }
  }

  /** Inserting into a sorted run appends `x` to the entries of its key and
      leaves the entries of every other key as they were. */
  lemma {:induction false} InsertWithKey(x: Entry, s: seq<Entry>, k: SortKey)
    requires Sorted(s)
    ensures WithKey(Insert(x, s), k) == WithKey(s, k) + Tag(x, k)
    decreases |s|
  {
    if |s| == 0 {
      WithKeySingle(x, k);
    } else if KeyLess(SortByDate(x), SortByDate(s[0])) {
      InsertFrontWithKey(x, s, k);
    } else {
      SortedTail(s);
      InsertWithKey(x, s[1..], k);
      InsertBehindWithKey(x, s, k);
    }
  }

  /** Inserting `x` behind the first entry of a run, given what inserting it
      into the rest does to the entries of key `k`. */
  lemma InsertBehindWithKey(x: Entry, s: seq<Entry>, k: SortKey)
    requires |s| > 0 && !KeyLess(SortByDate(x), SortByDate(s[0]))
    requires WithKey(Insert(x, s[1..]), k) == WithKey(s[1..], k) + Tag(x, k)
    ensures WithKey(Insert(x, s), k) == WithKey(s, k) + Tag(x, k)
  {
    var t := Insert(x, s[1..]);
    assert Insert(x, s) == [s[0]] + t;
    var a, b, c := Tag(s[0], k), WithKey(s[1..], k), Tag(x, k);
    WithKeyCons(s[0], t, k);
    WithKeyCons(s[0], s[1..], k);
    assert [s[0]] + s[1..] == s;
    assert WithKey(s, k) == a + b;
    ConcatAssociative(a, b, c);
  }

  lemma ConcatAssociative<T>(a: seq<T>, b: seq<T>, c: seq<T>)
    ensures a + (b + c) == (a + b) + c
  {
  }

  /** The entries with key `k` of a run with `y` in front. */
  lemma WithKeyCons(y: Entry, t: seq<Entry>, k: SortKey)
    ensures WithKey([y] + t, k) == Tag(y, k) + WithKey(t, k)
  {
    assert ([y] + t)[0] == y && ([y] + t)[1..] == t;
  }

  /** The sort is stable: the entries sharing a key keep their relative
      order. */
  lemma {:induction false} SortStable(s: seq<Entry>, k: SortKey)
    ensures WithKey(Sort(s), k) == WithKey(s, k)
    decreases |s|
  {
    if |s| > 0 {
      var init, last := s[..|s| - 1], s[|s| - 1];
      var t := Sort(init);
      assert s == init + [last];
      assert Sort(s) == Insert(last, t);
      SortSorted(init);
      InsertWithKey(last, t, k);
      SortStable(init, k);
      WithKeyAppend(init, [last], k);
      WithKeySingle(last, k);
      calc {
        WithKey(Sort(s), k);
        WithKey(t, k) + Tag(last, k);
        WithKey(init, k) + WithKey([last], k);
        WithKey(s, k);
      }
    }
  }

  /** With `sort=True` the ledger is a stable permutation of the registry
      ordered by `(date, 0 for BUY / 1 otherwise)`. */
  lemma MergeSorted(buys: seq<Purchase>, sells: seq<Sale>)
    ensures Sorted(Merge(buys, sells, true))
    ensures multiset(Merge(buys, sells, true)) == multiset(Registry(buys, sells))
    ensures forall k :: WithKey(Merge(buys, sells, true), k) == WithKey(Registry(buys, sells), k)
  {
    SortSorted(Registry(buys, sells));
    forall k
      ensures WithKey(Merge(buys, sells, true), k) == WithKey(Registry(buys, sells), k)
    {
      SortStable(Registry(buys, sells), k);
    }
  }

  /** Every entry of a merged ledger is unprocessed and came from one of the
      purchases or one of the sales. */
  lemma MergeEntries(buys: seq<Purchase>, sells: seq<Sale>, sort: bool, e: Entry)
    requires e in Merge(buys, sells, sort)
    ensures Unprocessed(e)
    ensures (exists i :: 0 <= i < |buys| && e == FromPurchase(buys[i]))
         || (exists j :: 0 <= j < |sells| && e == FromSale(sells[j]))
  {
    var reg := Registry(buys, sells);
    assert e in multiset(Merge(buys, sells, sort));
    assert e in reg;
    var n :| 0 <= n < |reg| && reg[n] == e;
    if n < |buys| {
      assert e == FromPurchase(buys[n]);
    } else {
      assert e == FromSale(sells[n - |buys|]);
    }
  }

  /** On ISO-dated entries a sorted ledger is in chronological order, and
      on a day with both, every purchase precedes every sale. */
  lemma SortedIsChronological(s: seq<Entry>, ds: seq<Date>, i: nat, j: nat)
    requires |ds| == |s|
    requires forall n :: 0 <= n < |s| ==> Valid(ds[n]) && s[n].date == Iso(ds[n])
    requires Sorted(s) && i < j < |s|
    ensures Ordinal(ds[i]) <= Ordinal(ds[j])
    ensures Ordinal(ds[i]) == Ordinal(ds[j]) && s[j].opType == Some(BUY) ==> s[i].opType == Some(BUY)
  {
    IsoOrder(ds[j], ds[i]);
    if Ordinal(ds[i]) == Ordinal(ds[j]) {
      BeforeIsChronological(ds[i], ds[j]);
      BeforeIsChronological(ds[j], ds[i]);
      assert ds[i] == ds[j];
    }
  }
}
