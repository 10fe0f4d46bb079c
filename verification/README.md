# sap-stocks-tool: the accounting core in Dafny

This project models the accounting engine of `sap-stocks-tool.py` and proves
properties of the model. The tool reconciles share purchases and sales for tax
reporting, in five parts:

- **Ledger walk (`process_transactions`).** One forward pass over the BUY/SELL
  entries. It carries the held quantity, the total BRL cost and the average
  price. On each entry it writes the exchange rate, the running quantity and
  the average; on a purchase also the BRL lot price and total cost; on a sale
  also the profit, the 15% tax and the BRL unit price.
- **Ledger assembly (`merge_transactional_data`, `sort_by_date`).** One
  entry per purchase and per sale, tagged BUY/EUR_TO_BRL or SELL/BRL_TO_EUR.
  With `sort=True` they are stably sorted by `(date, 0 for BUY / 1 otherwise)`.
- **EUR rate lookup (`_get_eur_quotation_data_for_date`, `yesterday_str`,
  `get_price_for_*_eur_at_date`).** A process-wide cache keyed by `M-D-Y`
  text. On a miss, the service is queried, stepping back one calendar day
  while it answers with an empty list. The model keeps the code's cache
  quirk: an empty answer is stored under the *next* key, the one not yet
  queried.
- **Enum text (`parse_enum`).** Reads `Class.MEMBER` back into an enum member.
- **Output path (`ensure_xlsx_extension`).** Appends `.xlsx` unless the path
  already ends with it.

Modules, one per component:

- `Results`: Option and Result.
- `Text`: digit strings, `int()`, `{n:0Wd}`, Python's `str <`, `split`/`join`,
  `endswith`, `\w`.
- `Calendar`: Gregorian dates, `yesterday_str`, ISO order.
- `Entries`: `OpType`, `CurrencyConversionType`, `StockTransactionEntry`,
  `sort_by_date`, `get_date_as_tuple`.
- `Rates`: the rate lookup.
- `Ledger`: the walk.
- `Assembly`: the merge and sort.
- `EnumText`: `parse_enum`.
- `OutputPath`: `ensure_xlsx_extension`.

Python exceptions become `Failure` values:

- ValueError on an unsupported op type.
- TypeError on an absent price or net proceeds, or on a date that does not
  split into three parts.
- ZeroDivisionError when a purchase leaves zero shares held.
- IndexError when a cached empty response is used.
- ValueError or OverflowError from `yesterday_str`.

The walk is generic in its per-entry arithmetic (`Transition`) and in its
stateful rate source (`RateSource`). The tool's instances are `Ledger.Settle`
and the cached PTAX lookup, which threads the cache as state. Facts about the
walk are proved for any transition satisfying the predicates
`Records`/`Tracks`/`SellsAtAverage`/`BuysAtCost`. Lemmas then show that
`Settle` satisfies them.

Two behaviours of the code are worth knowing, and the model keeps both:

- When the lookup has to step back from the requested date, the requested
  key is never written to the cache. A second query for the same date walks
  back again (`Rates.OriginalKeyNeverCached`).
- A purchase that leaves zero shares held divides by zero and raises. A sale
  that leaves zero shares keeps the old average (`Ledger.Settle`).

## Model

| member | source | states |
|---|---|---|
| Ledger.Settle | sap-stocks-tool.py:135-165 | One loop iteration for a BUY or SELL entry fails exactly when the EUR price is absent, net proceeds are absent on a sale, or a purchase leaves zero shares (the division at line 141), with the matching error. On success the raw fields are kept, the rate is stored and the quantity moves by +qty / -qty. A purchase adds its lot price `priceEur*qty*rate` to the cost and averages cost over quantity. A sale keeps the average, removes `qty*avg` from the cost and records `profit = rate*netProceeds - qty*avg`, `tax = 0.15*profit` (no floor) and `priceBrl = priceEur*rate`. |
| Ledger.SettleKeepsConsistent | sap-stocks-tool.py:130-154 | Every successful iteration preserves `total_cost_brl == total_qty * current_avg_price`. |
| Ledger.SettleRecords | sap-stocks-tool.py:144-163 | From consistent running values, `Settle` writes the new quantity and average onto the entry and leaves consistent values. |
| Ledger.SettleTracks | sap-stocks-tool.py:144-163 | `Settle` never changes date, op type, qty, price_eur, net_proceeds or cur_conv_type. It stores the rate and records the previous quantity plus or minus this one. |
| Ledger.SettleSellsAtAverage | sap-stocks-tool.py:150-165 | A sale records the pre-sale average and the profit, tax and BRL price formulas at that average. |
| Ledger.SettleBuysAtCost | sap-stocks-tool.py:135-148 | A purchase records its BRL lot price, a total cost equal to the old cost plus that lot, a nonzero quantity, and the average equal to cost over quantity. |
| Ledger.Walk | sap-stocks-tool.py:129-169 | A successful pass returns exactly one entry per input entry. |
| Ledger.ProcessTransactions | sap-stocks-tool.py:129-169 | `process_transactions`: the pass from zero holdings with the cached PTAX source. A successful pass returns one entry per input entry. Its partners are `ProcessTransactionsLedger`, `ProcessTransactionsSettles` and `ReprocessingIsIdempotent`. |
| Ledger.WalkHead | sap-stocks-tool.py:134-152 | The first entry of a successful pass has a known op type and a three-part date. Its rate comes from the source at that date, with the quote side chosen by the op type. The rest of the ledger is walked from the values it leaves. |
| Ledger.WalkChain | sap-stocks-tool.py:129-169 | A successful pass is a chain. Each output entry is the iteration applied to the running values recorded on the entry before it (zero for the first), and yields the values recorded on itself. The rate of step `i` is the source's answer for entry `i`'s own date and the quote side its op type reads. The source is asked in the state the lookups before it left, starting from the state passed in, and the pass ends in the state the last lookup left. |
| Ledger.WalkStepAt | sap-stocks-tool.py:134-165 | Entry `i` of the output is the iteration at the values recorded on entry `i-1`. Its rate is the source's answer for entry `i`'s date and the quote side its op type reads. The source is asked in the state the pass over entries `0..i-1` ends in, and that shorter pass succeeds. For entry 0 this is the initial state. |
| Ledger.ProcessTransactionsRates | sap-stocks-tool.py:134-175 | In `process_transactions` entry `i` stores as `cur_conv_rate` the rate `Rate` returns for its own date: `cotacaoCompra` for a purchase, `cotacaoVenda` for a sale. Each lookup sees the cache the lookups before it left, starting from the cache passed in, and the pass ends with the cache the last lookup left. |
| Ledger.WalkFinal | sap-stocks-tool.py:130-169 | The running values at the end of a pass are those recorded on the last entry, and they are consistent. |
| Ledger.WalkEntryAt | sap-stocks-tool.py:144-161 | Every output entry keeps its raw fields, stores a rate and an average, and records the previous running quantity plus or minus its own. |
| Ledger.WalkSaleAt | sap-stocks-tool.py:150-165 | A sale in the output records the average carried from before it, with profit, tax and BRL price at that average and its stored rate. |
| Ledger.WalkPurchaseAt | sap-stocks-tool.py:135-148 | A purchase in the output records its lot price, a nonzero running quantity, and total cost divided by quantity as the new average. |
| Ledger.RunningQuantity | sap-stocks-tool.py:130-161 | `total_qty` on entry `i` is the starting quantity plus every BUY and minus every SELL among entries `0..i`. |
| Ledger.AverageKeptBySales | sap-stocks-tool.py:141-163 | Across a run of sales the recorded average does not change: only a purchase recomputes it. |
| Ledger.UnknownOpTypeFails | sap-stocks-tool.py:166-167 | An entry whose op type is neither BUY nor SELL makes the whole pass fail. When the entries before it go through, the failure is the unsupported-op-type error (the `ValueError`). |
| Ledger.SettleAgain | sap-stocks-tool.py:135-165 | Settling an already settled entry again, from the same running values and at the same rate, gives the same entry and values. |
| Ledger.SettleReapplies | sap-stocks-tool.py:135-165 | `Settle` gives back its own output when reapplied, keeping date and op type. |
| Ledger.WalkIdempotent | sap-stocks-tool.py:129-169 | A pass over the output of a successful pass gives the same result, from the same running values and the same rate-source state. This holds for any source, including a caching one: each entry keeps its date and op type, so the source is asked the same question in the same state. |
| Ledger.ReprocessingIsIdempotent | sap-stocks-tool.py:129-169 | Running `process_transactions` again over its own output, from the same PTAX cache, returns the same entries, final running values and cache. |
| Ledger.ProcessTransactionsLedger | sap-stocks-tool.py:129-169 | `process_transactions` with the cached PTAX source returns the entries in order with raw fields kept. Each records the net quantity bought minus sold up to it, and the final running values are consistent. |
| Ledger.BuyCostConsistent | sap-stocks-tool.py:138-148 | On a purchase whose average is total cost over a nonzero total quantity, the recorded total cost equals the total quantity times the average. |
| Ledger.SettleStep | sap-stocks-tool.py:135-165 | One successful iteration stores exactly the rate it was given. A sale records the average held before it, with profit, tax and BRL unit price at that average. A purchase records its lot price, the previous cost plus that lot, and an average for which cost equals quantity times average. |
| Ledger.ChainSettles | sap-stocks-tool.py:129-165 | Every entry in a chain of `Settle` steps records what `SettleStep` states, from the values recorded on the entry before it. |
| Ledger.ProcessTransactionsSettles | sap-stocks-tool.py:129-169 | In `process_transactions` with the cached PTAX source, every sale records the pre-sale average and its profit `rate*netProceeds - qty*avg`, tax `0.15*profit` and unit price in BRL. Every purchase records its lot price in BRL and a total cost equal to the previous `qty*avg` plus that lot. Its average then makes `total_cost_brl == total_qty * avg_price`. |
| Ledger.WorkedExample | sap-stocks-tool.py:135-165 | Buy 10 at 20 EUR at rate 5, then sell 4 for 76 EUR net at rate 5.2, gives cost 1000, average 100, profit -4.8, tax -0.72, and 6 shares left. |
| Rates.Probe | sap-stocks-tool.py:195-212 | The fallback loop ends with a non-empty response equal to the service's answer for the last key sent. That response is cached under that key, the first key sent is the requested one, and every earlier key came back empty. It never fails with a missing quote. |
| Rates.ProbeTrace | sap-stocks-tool.py:198-206 | The `i`-th key sent is the requested day stepped back `i` times. |
| Rates.ProbeCache | sap-stocks-tool.py:201-210 | After the loop, every key after the first holds the empty response from the step before it. The last key holds the answer, and all other entries are untouched. |
| Rates.ProbeSucceedsWithinFuel | sap-stocks-tool.py:198-207 | The loop succeeds whenever the service answers for some day within the step bound. |
| Rates.ProbeWithinMeasure | sap-stocks-tool.py:198-207 | With a day step that lowers a positive measure by one, a step bound equal to the measure of the requested day is never exhausted. The loop then fails only where the day step raises. |
| Rates.ProbeFuelSuffices | sap-stocks-tool.py:177-207 | `yesterday_str` raises at 0001-01-01, so the loop sends at most as many queries as the requested day's ordinal. With that step bound the only failure is that raise. |
| Rates.FetchQuotes | sap-stocks-tool.py:190-212 | A hit on the requested key returns the stored response, sends no query and leaves the cache unchanged. A lookup sends no query exactly when it hits. On a miss the first key sent is the requested one. The answer is non-empty and is the service's answer for the last key sent, and every earlier key came back empty. The cache afterwards is the old cache plus every key after the first. The last key holds the answer and the others hold an empty answer. A failure is never a hit and is never the IndexError case. |
| Rates.Rate | sap-stocks-tool.py:171-175 | The buying or selling quote of element 0. It fails with a missing quote exactly when the requested key is cached with an empty response. |
| Rates.ProbeStopsAtFirstAnswer | sap-stocks-tool.py:198-207 | The loop stops at the first day, stepping back, that the service answers for. Every day before it was queried and was empty. |
| Rates.ProbeFindsLatestAnsweredDay | sap-stocks-tool.py:177-212 | With `yesterday_str`, the day used is exactly `n` calendar days before the requested one, and the `n` days after it had no quotes. |
| Rates.QuoteKeyInjective | sap-stocks-tool.py:191 | Digit-only date parts are determined by their `M-D-Y` key. |
| Rates.SteppedKeysDiffer | sap-stocks-tool.py:202-205 | Days a different number of steps back have different keys. |
| Rates.SteppedKeyDiffers | sap-stocks-tool.py:202-205 | No stepped-back key equals the requested key. |
| Rates.SkippedDayCachedEmpty | sap-stocks-tool.py:201-210 | A day stepped over between the requested one and the answered one is left cached with an empty response. A later lookup of that day then fails on element 0. |
| Rates.OriginalKeyNeverCached | sap-stocks-tool.py:193-210 | When the requested day is empty, its key is still absent from the cache after the lookup. |
| Calendar.PredIsPreviousDay | sap-stocks-tool.py:180-182 | The day before a valid date has ordinal one less, rolling day 1 back to the previous month's last day and January 1 to December 31. |
| Calendar.ParseParts | sap-stocks-tool.py:180 | `datetime(int(y), int(m), int(d))` yields only a valid Gregorian date in years 1..9999. |
| Calendar.ParsePartsDigits | sap-stocks-tool.py:180 | The three parts read as a date exactly when each is a non-empty run of decimal digits and the numbers they denote name a real day. The date is then those numbers. |
| Calendar.YesterdayStr | sap-stocks-tool.py:177-188 | `yesterday_str` fails exactly where `int`, `datetime` or the subtraction raises: unparsable text, no such day, or 0001-01-01. Otherwise it returns parts 4, 2 and 2 characters wide. |
| Calendar.StepsBackMeasure | sap-stocks-tool.py:202-205 | If each step back lowers a measure by one, `k` steps lower it by `k`. |
| Calendar.YesterdayStrIsPreviousDay | sap-stocks-tool.py:177-188 | `yesterday_str` succeeds exactly on valid dates after 0001-01-01. It then returns 4/2/2-digit zero-padded text of the day whose ordinal is one less. |
| Calendar.StepsBackOrdinal | sap-stocks-tool.py:202 | `k` applications of `yesterday_str` land exactly `k` days earlier. |
| Calendar.ParseFormat | sap-stocks-tool.py:184-188 | The zero-padded text of a date reads back as that date. |
| Calendar.BeforeIsChronological | sap-stocks-tool.py:180 | Tuple order of valid dates is day-number order. |
| Calendar.IsoOrder | sap-stocks-tool.py:258 | Comparing `%Y-%m-%d` strings with `<` is comparing the dates chronologically. |
| Calendar.IsoSplit | sap-stocks-tool.py:94-95 | `split('-')` on an ISO date gives its three zero-padded parts. |
| Entries.KeyLessTransitive | sap-stocks-tool.py:66-67 | Python's tuple `<` on sort keys is transitive. |
| Entries.KeyLessTotal | sap-stocks-tool.py:66-67 | Distinct sort keys are comparable. |
| Entries.DateTupleSplits | sap-stocks-tool.py:94-95 | The date tuple exists exactly when the date has three '-'-separated parts, which then hold no '-' and rejoin to the date. |
| Entries.DateTuple | sap-stocks-tool.py:94-95 | `get_date_as_tuple` feeding the three-argument call at lines 137 and 152. When it yields a tuple, the three parts joined with '-' give back the entry's date. |
| Entries.DateTupleOfIso | sap-stocks-tool.py:94-95 | An ISO-dated entry splits into the parts of its date, which parse back to it. |
| Assembly.PurchaseRoundTrip | sap-stocks-tool.py:299-300 | A purchase entry carries exactly its purchase, tagged BUY/EUR_TO_BRL with computed fields empty. |
| Assembly.SaleRoundTrip | sap-stocks-tool.py:302-303 | A sale entry carries exactly its sale, tagged SELL/BRL_TO_EUR with the execution price as EUR price and computed fields empty. |
| Assembly.Registry | sap-stocks-tool.py:297-303 | Before sorting, the registry is the purchases' entries in order followed by the sales' entries, one each. |
| Assembly.Merge | sap-stocks-tool.py:296-308 | The result has one entry per record and is a permutation of the registry. Without sorting it is the registry itself. |
| Assembly.Insert | sap-stocks-tool.py:305-306 | One insertion step adds exactly one entry. |
| Assembly.Sort | sap-stocks-tool.py:305-306 | The sort is a permutation. |
| Assembly.InsertSorted | sap-stocks-tool.py:305-306 | Inserting into a sorted run keeps it sorted by `(date, rank)`. |
| Assembly.SortSorted | sap-stocks-tool.py:66-67 | The sorted ledger is ordered by `(date, 0 for BUY / 1 otherwise)`. |
| Assembly.InsertWithKey | sap-stocks-tool.py:305-306 | Inserting places the new entry after the existing entries of its key and leaves other keys alone. |
| Assembly.SortStable | sap-stocks-tool.py:305-306 | The sort is stable: the entries with one key keep their input order. |
| Assembly.MergeSorted | sap-stocks-tool.py:296-308 | With `sort=True` the ledger is a sorted, stable permutation of the registry. |
| Assembly.MergeEntries | sap-stocks-tool.py:296-308 | Every merged entry is unprocessed and built from one of the purchases or sales. |
| Assembly.SortedIsChronological | sap-stocks-tool.py:258-306 | On ISO-dated entries the sorted ledger is chronological, and on a shared day purchases come before sales. |
| EnumText.ParseEnum | sap-stocks-tool.py:355-380 | The result is a member exactly when the value is the text `Name.M`, with `M` a word that names a member, and then it is that member. Non-strings, empty text, other prefixes and unknown names give None. |
| EnumText.StripPrefix | sap-stocks-tool.py:370-372 | The literal prefix of the pattern matches exactly when the text starts with it, leaving the rest. |
| EnumText.ParseEnumRoundTrip | sap-stocks-tool.py:355-380 | The text of a member under its class name reads back as that member. |
| EnumText.ParseEnumOtherClass | sap-stocks-tool.py:369-371 | Text naming another class is refused, whatever follows the dot, when neither class name contains a dot (as no identifier does). |
| EnumText.OpTypeTextRoundTrip | sap-stocks-tool.py:55-57 | `OpType.BUY` and `OpType.SELL` reload as themselves. |
| EnumText.ConversionTextRoundTrip | sap-stocks-tool.py:59-61 | `CurrencyConversionType.EUR_TO_BRL` and `.BRL_TO_EUR` reload as themselves. |
| EnumText.OpTypeTextInjective | sap-stocks-tool.py:55-57 | Distinct op types have distinct texts. |
| EnumText.ConversionTextIsNoOpType | sap-stocks-tool.py:369-380 | A conversion-type text in the op-type column reads as no op type. |
| OutputPath.EnsureXlsx | sap-stocks-tool.py:491 | The result ends with `.xlsx` and begins with the given path. |
| OutputPath.EnsureXlsxMinimal | sap-stocks-tool.py:491 | The path is changed exactly when it lacks the extension, and then only by appending it. A second application changes nothing. |
| Text.FixedRoundTrip | sap-stocks-tool.py:185-187 | `{n:0Wd}` of a number below `10^W` reads back with `int()` as that number. |
| Text.FixedOrder | sap-stocks-tool.py:185-187 | On numbers of one width, string order of the padded text is numeric order. |
| Text.SplitJoin | sap-stocks-tool.py:94-95 | `split` undoes `join` on pieces free of the separator. |

## Left out

- PDF extraction, spreadsheet filtering, Excel save/load, the HTTP request and JSON decoding, printing, argparse and the terms prompt are I/O. They are not modelled. The rate service is an abstract oracle from the `M-D-Y` key to its `value` list.
- Floating point: quantities, prices and rates are exact `real`s, so IEEE-754 rounding is not reproduced.
- Rates.Probe: Python's loop has no explicit bound, but it cannot run forever: once it reaches 0001-01-01, `yesterday_str` raises OverflowError. The model takes a step bound (`fuel`) and returns `LookupExhausted` past it. `ProbeFuelSuffices` shows that a bound equal to the requested day's ordinal is never exhausted, so the only failure left is that raise. `ProbeSucceedsWithinFuel` shows the bound succeeds whenever the service answers within that many days. `ProcessTransactions` takes the bound as a parameter.
- Rates.Probe: on a failure the model returns no cache, while Python leaves the entries written before the exception in the global cache.
- Calendar.ParseParts: `int()` is modelled on ASCII digit strings only. Signs, surrounding whitespace, underscores and non-ASCII digits are not accepted.
- EnumText.ParseEnum: `\w` is modelled by its ASCII part. `$` accepting a trailing newline is not modelled. The class name is matched literally, which agrees with the regular expression for identifier names.
- Rates.FetchQuotes: the cache is an explicit value threaded through the pass, not module-global state; a pass's cache is what the next lookup sees.
- Ledger.Walk: the loop mutates entries in place, while the model returns new entries. When a pass fails, the partially updated entries Python leaves behind are not modelled.
- Ledger.WorkedExample: a concrete instance, proved without proof steps.
