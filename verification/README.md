# Invoice extraction core, modelled in Dafny

This project models how an invoice extractor turns AWS Textract output into
invoices. Textract has two analyses. The Expense analysis gives summary fields
and line-item groups. The FORMS analysis gives KEY_VALUE_SET blocks.

The model covers six steps:

- **Normalising documents** (`parse_expense_documents`). Each ExpenseDocument
  becomes an invoice with four header values. Each header is looked up by
  declared type first, then by label. Each line item is resolved from its
  fields (`li_extract`):
  - the description and quantity are taken from the first field that offers them;
  - the rate and amount candidates are collected by type, then by label, and de-duplicated;
  - amount candidates that echo the document total are dropped;
  - the (rate, amount) pair is chosen by quantity-aware error minimisation with soft bonuses;
  - missing values are filled without overwriting;
  - rate and amount are swapped when only the swapped pair is consistent.
- **Merging by invoice number** (`merge_documents_by_invoice_number`):
  - documents are grouped by their stripped invoice number;
  - each group is sorted by a score;
  - the best document's empty headers are filled from the others;
  - all members' line items are concatenated.
- **Choosing the primary document** (`choose_primary_document`). Documents
  whose total parses are preferred. Among them, the one with the most
  non-empty line items wins, and the earliest wins ties.
- **Sanitising line items** (`sanitize_line_items`):
  - summary rows (subtotal, tax, VAT, discount, …) are dropped;
  - empty rows are dropped;
  - a missing amount is computed;
  - a zero quantity is treated as noise;
  - a missing quantity is inferred from amount / unit price.
- **The FORMS key/value map** (`parse_forms_key_values`, `_get_text_from_block`).
  Keys are normalised. A value only fills an empty slot.
- **The gap-patch** in `process_local_pdf`. When the primary invoice lacks a
  usable invoice number, date or terms, the FORMS map fills those gaps.

How Python constructs appear in the model:

- **Stateful code** is modelled as methods with loops.
  - `li_extract`, the document loops, `sanitize_line_items`,
    `parse_forms_key_values`, the merge loops, `_extract_from_kv` and the
    gap-patch are each proved equal to a specification function.
  - `choose_primary_document` works on an `array`, because the source sorts
    the caller's list in place.
- **Python semantics** are written out:
  - `Decimal.quantize` rounds half to even (`RoundHalfEven`);
  - `sorted`/`list.sort` are stable (`StableSort.SortDesc`, proved stable);
  - dicts keep insertion order (`Common.OrderedDict`);
  - truthiness of strings (`Common.Truthy`);
  - `str.strip` uses the `isspace` set (`Common.Strip`).
- **Helpers from `utils`** (`clean_text`, `to_decimal_maybe`, `to_decimal_qty`,
  `is_currency_like`, `compute_amount_if_missing`, Decimal formatting) are
  parameters: the `Records.Utils` record of total functions.
- **Label regular expressions** are predicates (`Records.Pattern`).
  `SUMMARY_RX` is written out (`Sanitizer.SummaryRow`) because its shape is
  what decides which rows are dropped.

Behaviour of the code worth noting:

- quantizing rounds half to even, not half up;
- in the FORMS map, a later value replaces an earlier EMPTY value for the same
  key (`expense_parser.py:49-50`);
- the zero-quantity rule fires when the unit price is missing OR zero
  (`not price_d`, `expense_parser.py:300`);
- `choose_primary_document` reorders the caller's list when no total parses
  (`expense_parser.py:268-269`).

## Model

| member | source | states |
|---|---|---|
| Common.Strip | expense_parser.py:86 | `str.strip()`: the result has no whitespace at either end |
| Common.StripRemovesOnlySpace | expense_parser.py:86 | stripping removes a run of whitespace at each end and nothing else |
| Common.StripEmptyIffAllSpace | expense_parser.py:87 | a string strips to empty exactly when it is all whitespace |
| Common.Dedup | expense_parser.py:83-88 | a duplicate-free list holding exactly the elements of the input |
| Common.DedupPrefix | expense_parser.py:83-88 | first-seen order: what is collected from a prefix of the input is a prefix of what is collected from all of it |
| Common.Filter | expense_parser.py:267 | a list comprehension keeps exactly the elements satisfying the test; empty iff none does |
| Common.FilterIsSubsequence | expense_parser.py:267 | the kept elements stay in input order: the result is a sub-list of the input |
| Common.FilterMapSelects | expense_parser.py:279-320 | filter-and-map keeps input order: the j-th output comes from the j-th kept position, and a position is kept exactly when it yields a value |
| Decimal.RoundHalfEven | expense_parser.py:189 | nearest integer, ties to the even one (`quantize` with the default rounding) |
| Decimal.RoundHalfEvenUnique | expense_parser.py:189 | any integer closer than one half is the rounding result |
| Decimal.Cents | expense_parser.py:189 | `quantize(Decimal("0.01"))`: a whole number of cents within half a cent; a half-cent tie goes to the even cent |
| Decimal.Mils | expense_parser.py:305 | `quantize(Decimal("0.001"))`: a whole number of thousandths within half a thousandth; a tie goes to the even thousandth |
| Decimal.ToIntegral | expense_parser.py:306-307 | `to_integral_value()`: an integer within one half; a tie goes to the even integer |
| Decimal.Close | expense_parser.py:77-81 | false when either side is missing; true within 0.05 and true within 2% of abs(b); true only within max(2% of abs(b), 0.05) |
| HeaderNormalizer.ValueByType | expense_parser.py:55-62 | the value of the first field of that type with a non-empty value; None iff there is none |
| HeaderNormalizer.ValueByLabel | expense_parser.py:64-74 | the value of the first field with a non-empty label matching some regex and a non-empty value; None iff there is none |
| HeaderNormalizer.ValueByTypes | expense_parser.py:233-237 | `sumval`: the first type name, in order, that yields a value |
| HeaderNormalizer.HeaderPrefersType | expense_parser.py:239-246 | a header found by type wins over any label; the label search is used only when no field has one of the types; None iff neither finds a value |
| HeaderNormalizer.TypedHeaderWinsExample | expense_parser.py:239-240 | a typed INVOICE_NUMBER field beats an earlier field labelled "Invoice No." |
| HeaderNormalizer.NormalizeDocumentHeaders | expense_parser.py:233-246 | each of the four headers is found by its types first (whenever a field has one of them), by its label regexes otherwise, and is None exactly when no field has either |
| HeaderNormalizer.NormalizeDocumentItems | expense_parser.py:248-254 | one line item per raw line item of every group, in order, each extracted with the parsed total as the echo hint |
| HeaderNormalizer.ParseDocument | expense_parser.py:229-262 | the loop builds the normalised document, line items in group order |
| HeaderNormalizer.ExtractDocumentItems | expense_parser.py:250-254 | one resolved line item per line item of every group, in order, each with the document total as hint |
| HeaderNormalizer.ParseExpenseDocuments | expense_parser.py:109-263 | one normalised document per ExpenseDocument of every page, in page order |
| LineItemResolver.FirstOfferedIsFirstNonEmpty | expense_parser.py:145-150 | description/quantity come from the first feeding field with a non-empty value; None iff no field feeds the column |
| LineItemResolver.UniqueIsDedupOfStripped | expense_parser.py:83-88 | repeated `_push_unique` is the first-seen de-duplication of the stripped non-empty values |
| LineItemResolver.CandidateListsWellFormed | expense_parser.py:83-88 | candidate lists are duplicate-free, stripped, non-empty, keep every usable value, and only grow |
| LineItemResolver.TypedCandidatesFirst | expense_parser.py:139-164 | candidates found by type precede those found by label |
| LineItemResolver.NotEchoedFilters | expense_parser.py:168-172 | the filter keeps exactly the amounts that do not echo the total, in order |
| LineItemResolver.DropEchoedTotalOnlyRemoves | expense_parser.py:167-173 | only removes entries; never empties a non-empty list; no total means no change; all echoes means the list is kept |
| LineItemResolver.RateBonus | expense_parser.py:102-106 | non-negative, positive exactly for a currency-like rate |
| LineItemResolver.AmountBonus | expense_parser.py:90-100 | at most -0.05 exactly for a currency-like amount; -0.01 more exactly when it parses to whole cents |
| LineItemResolver.PairsAt | expense_parser.py:181-188 | rates in the outer loop, amounts in the inner one: pair (i, j) is visited at step i·|amts|+j |
| LineItemResolver.BestIndex | expense_parser.py:180-196 | the kept pair has an error below 1e9, strictly below every earlier pair and at most every later one; none kept iff no pair beats 1e9 |
| LineItemResolver.BestOfAtBestIndex | expense_parser.py:180-196 | the search loop keeps exactly the pair at that index |
| LineItemResolver.UnparseableRateSkipped | expense_parser.py:182-184 | a rate that does not parse leaves the search unchanged |
| LineItemResolver.ChoosePair | expense_parser.py:179-204 | rate/amount are None iff their candidate list is empty; the best pair when a quantity parses and some pair is kept; otherwise the first candidates |
| LineItemResolver.PairsInCandidates | expense_parser.py:181-198 | every pair searched, and the pair kept, come from the candidate lists |
| LineItemResolver.FillGaps | expense_parser.py:206-213 | an existing amount or rate is never overwritten; a missing amount is the computed one; a rate is computed only when missing |
| LineItemResolver.CorrectSwap | expense_parser.py:215-224 | swaps exactly when quantity × rate is inconsistent but the swapped pair is consistent |
| LineItemResolver.ResolvedPairComesFromCandidates | expense_parser.py:179-224 | with both candidate lists non-empty, the resolved rate and amount are candidates (possibly swapped) |
| LineItemResolver.ResolvedDescriptionAndQuantity | expense_parser.py:145-150 | the raw quantity is the first non-empty quantity value; the description is the first collected one |
| LineItemResolver.PairingExample | expense_parser.py:179-198 | quantity 2, rates 10.00 and 99.00, amount 20.00: the search picks (10.00, 20.00) |
| LineItemResolver.SwapExample | expense_parser.py:219-224 | quantity 3, rate 30.00, amount 10.00: the pair is swapped |
| LineItemResolver.CollectByType | expense_parser.py:139-155 | the first pass yields the first description and quantity and the typed candidate lists |
| LineItemResolver.CollectByLabel | expense_parser.py:158-164 | the second pass continues the lists with the labelled values |
| LineItemResolver.FilterEchoedTotal | expense_parser.py:167-173 | the filter loop computes the echoed-total filter |
| LineItemResolver.SearchBestPair | expense_parser.py:179-196 | the nested loops compute the search over all pairs |
| LineItemResolver.ExtractLineItem | expense_parser.py:132-226 | `li_extract` stage by stage equals the resolved line item |
| PrimarySelector.Candidates | expense_parser.py:267-268 | an order-kept sub-list of the documents holding every document whose total parses, and only those when any does; all documents otherwise; empty iff no documents |
| PrimarySelector.Primary | expense_parser.py:265-270 | None iff there are no documents |
| PrimarySelector.PrimaryIsBestCandidate | expense_parser.py:265-270 | the primary is a candidate with the most non-empty line items, the earliest such; it has a total if any document has one, and at least as many non-empty rows as every document whose total parses |
| PrimarySelector.ListAfter | expense_parser.py:268-269 | the caller's list keeps its elements; it is untouched when some total parses, and ends sorted by non-empty row count, descending, when none does |
| PrimarySelector.CollectWithTotal | expense_parser.py:267 | the comprehension over the array keeps the documents whose total parses |
| PrimarySelector.ChoosePrimaryDocument | expense_parser.py:265-270 | returns the primary and leaves the caller's array sorted in place exactly when no total parses |
| StableSort.SortDescIsSorted | expense_parser.py:269 | `sort(key, reverse=True)` yields a non-increasing order of keys |
| StableSort.SortDesc | expense_parser.py:269 | the result is a permutation of the input |
| StableSort.SortDescIsStable | aggregater.py:28 | elements with equal keys keep their input order |
| StableSort.SortDescHead | aggregater.py:28-29 | the first element is the earliest element with the largest key |
| StableSort.SortDescSum | aggregater.py:35-38 | sorting preserves any per-element total |
| Sanitizer.SubtotalDropped | expense_parser.py:274 | "Subtotal" is a summary row |
| Sanitizer.TaxDropped | expense_parser.py:274 | "  TAX" is a summary row |
| Sanitizer.TotalFeesDropped | expense_parser.py:275 | "Total Fees" is a summary row |
| Sanitizer.TotalFeeKept | expense_parser.py:274-275 | "Total fee" matches no alternative: `total(?!\s*fee)` fails and `total\s*fees` needs the s |
| Sanitizer.TotalsKept | expense_parser.py:274-275 | "Totals" is not a summary row (no word boundary after "total") |
| Sanitizer.TaxiKept | expense_parser.py:274-275 | "Taxi" is not a summary row |
| Sanitizer.TaxiFareKept | expense_parser.py:274-275 | "Taxi fare" is not a summary row |
| Sanitizer.InferredQuantity | expense_parser.py:304-308 | amount/price to the thousandth (within 0.0015 of the exact quotient); when that lies within 0.001 of an integer the result is that integer, otherwise it is the thousandth value unchanged |
| Sanitizer.NearIntegerIsNearItsRounding | expense_parser.py:306 | `to_integral_value()` is within 0.001 exactly when some integer is |
| Sanitizer.RepairQuantity | expense_parser.py:299-308 | a zero quantity with a non-zero amount and no usable price becomes unknown; a missing quantity is inferred from amount and non-zero price; otherwise unchanged |
| Sanitizer.InferQuantityExample | expense_parser.py:304-308 | amount 45, price 15, no quantity: quantity 3 |
| Sanitizer.ZeroQuantityExample | expense_parser.py:300-301 | quantity 0, no price, amount 12.5: quantity unknown |
| Sanitizer.SanitizeRow | expense_parser.py:281-319 | a row is dropped iff it is a summary row or empty; otherwise description, price and amount (given or computed) are kept and the quantity is repaired |
| Sanitizer.SanitizeKeepsOrder | expense_parser.py:279-320 | the cleaned rows are the kept rows in input order, each the sanitised form of its input row |
| Sanitizer.CleanRow | expense_parser.py:282-319 | the loop body computes the row's sanitised form |
| Sanitizer.SanitizeLineItems | expense_parser.py:279-320 | the loop computes the sanitised list |
| FormsMap.IdMap | expense_parser.py:37 | every block with an Id is found under it, and every entry is one of the blocks, stored under its own Id |
| FormsMap.IdMapLastWins | expense_parser.py:37 | of blocks sharing an Id, the last one is kept |
| FormsMap.EveryMarkedChildContributes | expense_parser.py:23-31 | every CHILD whose block is a WORD with text or a SELECTED selection element contributes its part to the joined text |
| FormsMap.BlockText | expense_parser.py:21-31 | the joined text has no whitespace at either end |
| FormsMap.BlockTextFromWordsAndMarks | expense_parser.py:21-31 | each part of the text comes from a WORD or a SELECTED child; no such child gives "" |
| FormsMap.LastNonEmpty | expense_parser.py:43-46 | `text or value_txt` over the VALUE children: the last non-empty text wins; "" iff all are empty |
| FormsMap.CollectValueText | expense_parser.py:42-46 | the loop computes the value text |
| FormsMap.StoreGrows | expense_parser.py:49-51 | storing keeps key order and every non-empty stored value |
| FormsMap.StoreWellFormed | expense_parser.py:47-51 | stored keys are non-empty, stripped and lower-cased; values are stripped |
| FormsMap.KeyNormIsNormal | expense_parser.py:47 | a non-empty normalised key is stripped and lower-cased |
| FormsMap.FormsKeyValuesWellFormed | expense_parser.py:33-52 | the whole map is well formed, and what earlier pages stored survives later pages unless it was empty |
| FormsMap.Store | expense_parser.py:48-51 | a non-empty key that is absent or holds "" takes the value; an empty key or a key with a non-empty value leaves the map unchanged; other keys keep their values; a key is appended only when new |
| FormsMap.FormsKeyValuesIsStoreAll | expense_parser.py:33-52 | the map is the pairs of every KEY block, in page and block order, stored one by one |
| FormsMap.StoreAllKeys | expense_parser.py:48-51 | the keys are the non-empty offered keys in order of first offer, without repeats |
| FormsMap.StoreAllHasKey | expense_parser.py:48-51 | a key is present exactly when it is non-empty and some pair offers it |
| FormsMap.FirstFilledIsFirst | expense_parser.py:49-51 | the value for a key is "" exactly when every value offered for it is, otherwise it is the earliest non-empty one |
| FormsMap.StoreAllValues | expense_parser.py:49-51 | a stored key holds the first non-empty value offered for it |
| FormsMap.KeyEntriesAreKeyBlocks | expense_parser.py:36-40 | every offered pair comes from a KEY block of some page, and every KEY block offers its pair |
| FormsMap.FormsKeyValuesSpec | expense_parser.py:33-52 | keys in order of first offer; a key present exactly when non-empty and offered; its value the first non-empty one in page and block order |
| FormsMap.FormsKeysAreKeyBlockKeys | expense_parser.py:36-51 | a key is in the map exactly when it is non-empty and some KEY block of some page normalises to it |
| FormsMap.KeyBlockKeyIsStored | expense_parser.py:39-51 | every KEY block with a non-empty normalised key puts that key in the map |
| FormsMap.StoredKeyIsKeyBlockKey | expense_parser.py:39-51 | every key in the map is the normalised key text of some KEY block |
| FormsMap.AddKeyBlock | expense_parser.py:39-51 | one KEY block's step of the loop |
| FormsMap.ParseFormsKeyValues | expense_parser.py:33-52 | the nested loops compute the key/value map |
| Aggregator.KeyOfStripped | aggregater.py:12-14 | a key is never empty and is already stripped |
| Aggregator.KeyOfMeaning | aggregater.py:12-14 | two documents share a key exactly when their stripped invoice numbers are equal or each is blank or literally `__NO_ID__` |
| Aggregator.NoIdForBlank | aggregater.py:12-14 | a missing or blank invoice number goes to the sentinel bucket |
| Aggregator.ZeroIsItsOwnKey | aggregater.py:12-14 | invoice number "0" is its own key |
| Aggregator.SentinelCollides | aggregater.py:12-14 | a literal `__NO_ID__` shares the bucket of documents without a number |
| Aggregator.Score | aggregater.py:21-27 | non-negative; at least 3000 (three points) when all three headers are present |
| Aggregator.ScoreOrdersAsSource | aggregater.py:20-27 | the integer score orders and ties documents exactly as the source's headers + items/1000, taken in exact arithmetic |
| Aggregator.HeadersDominateScore | aggregater.py:21-27 | below 1000 items, more present headers always means a higher score |
| Aggregator.GroupByKeys | aggregater.py:16-17 | groups come in order of first appearance of their keys |
| Aggregator.GroupByMembers | aggregater.py:16-17 | each group holds exactly the documents with its key, in input order |
| Aggregator.GroupByCovers | aggregater.py:16-17 | every document's key has a group and no group is empty |
| Aggregator.GroupByKeepsWeight | aggregater.py:16-17 | grouping loses and duplicates nothing |
| Aggregator.FillIsFirstTruthy | aggregater.py:30-33 | a truthy header is never overwritten; a falsy one takes the first truthy value of the later members, or stays as it was |
| Aggregator.FillFromFields | aggregater.py:29-33 | the fill loop treats the three headers independently and changes nothing else |
| Aggregator.AllItems | aggregater.py:35-37 | the concatenated items number the members' items summed |
| Aggregator.AllItemsConcatenates | aggregater.py:35-38 | the collected items are the documents' own item lists, one after another, in the documents' order |
| Aggregator.MergeShape | aggregater.py:28-38 | the base is the earliest top-scoring member; the invoice number is the base's; headers are filled fill-only; the items are all members' items in sorted order |
| Aggregator.MergeSingle | aggregater.py:16-39 | a one-document group merges into that document |
| Aggregator.MergeAllShape | aggregater.py:3-40 | no documents give no records; otherwise one record per distinct key, in first-appearance order, merging exactly that key's documents |
| Aggregator.MergeKeepsItemCount | aggregater.py:3-40 | the records hold as many line items as the input documents |
| Aggregator.GroupDocuments | aggregater.py:15-17 | the grouping loop builds the groups |
| Aggregator.MergeGroup | aggregater.py:28-39 | the per-group loops build the merged record |
| Aggregator.MergeDocumentsByInvoiceNumber | aggregater.py:3-40 | the function computes the merged list |
| GapPatch.FirstMatchingKey | main.py:22-27 | the first key, in insertion order, that some pattern matches; no earlier key matches |
| GapPatch.KvLookupIsFirstMatch | main.py:22-27 | None iff no key matches; otherwise the value of the first matching key |
| GapPatch.ExtractFromKv | main.py:22-27 | the early-return loops compute the lookup |
| GapPatch.PatchOnlyFillsGaps | main.py:116-134 | a field changes only when flagged and the FORMS analysis succeeded; the invoice number only to a non-empty, non-currency-like value; date and terms only to a non-empty value; each the first matching key's value; total and items never change |
| GapPatch.PatchFillsWhatItCan | main.py:126-134 | a flagged field with a usable FORMS value takes it and is no longer flagged |
| GapPatch.PatchOpensNoGap | main.py:116-134 | every field flagged after the patch was flagged before |
| GapPatch.PatchPrimary | main.py:116-134 | FORMS is requested iff the number is empty or currency-like, or the date or terms are empty; without a request nothing changes |

## Left out

- I/O is not part of this model: S3 upload, Textract job start, polling and
  paging (`client.py`), JSON saving, and report printing (`print_invoice_report`,
  `make_clean_json` in `main.py`). The FORMS analysis outcome is a parameter of
  `GapPatch.PatchPrimary`: its pages when it succeeded, `None` when it did not.
- `utils` (`clean_text`, `to_decimal_maybe`, `to_decimal_qty`,
  `is_currency_like`, `compute_amount_if_missing`, `normalize_date`) is not
  part of this model. Those functions are parameters, assumed deterministic
  and total.
- Apart from `SUMMARY_RX`, the regular expressions are abstract predicates
  over the lower-cased label. Case folding and `\w` are ASCII only.
- Decimal arithmetic is exact `real` arithmetic. The 28-digit context
  precision and Decimal's string formatting are not modelled.
- Aggregator.Score: the score is 1000 × (present headers) + number of line
  items, an integer. `ScoreOrdersAsSource` proves it orders documents as
  the source's `headers + len(items)/1000` taken as an exact rational;
  the floating-point rounding of that sum is not modelled.
- The merge starts from a shallow copy of the best document
  (`group_sorted[0].copy()`, `aggregater.py:29`). The model works on
  immutable values, so the source's aliasing between the input documents and
  the merged records is not captured. The gap-patch likewise returns a new
  invoice instead of assigning into the primary dict, which the
  merged-documents list shares.
- StableSort.SortDesc: the sort is an insertion sort on values.
  `choose_primary_document` writes the sorted order back into the caller's
  array, but the sorting algorithm of CPython itself is not modelled, only
  its result (stable, descending).
- Textract documents missing keys (`.get(..., [])`, `or {}`) are records
  whose absent values are empty sequences or `None`.
