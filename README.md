# Drug-delivery record store: a verified model

This project models the record-keeping core of the drug-delivery dashboard.
The dashboard is a single React component, `frontend/web/src/App.tsx`.
It keeps trial records on a ledger contract that acts as a key/value store:

- one index key, `drug_delivery_keys`, holds the ordered list of record ids;
- each record is stored as a JSON object under `drug_delivery_<id>`.

The model covers these parts of the component:

- **Hydration** (`loadRecords`). Read the index; an empty or unparseable index counts as no ids. Load every listed record, skipping the ones whose bytes are empty or do not parse. Default a missing status to `"pending"`. Sort the rows newest first.
- **Creation** (`submitRecord`). Encode the medical history (which fails on characters above U+00FF), write the new record as pending, then read the index, append the id and write the index back.
- **Lifecycle step** (`runFheSimulation`). Load one record and write it back with status `"optimized"` and the simulation results. The record's prior status is not checked.
- **Projections**. The case-insensitive search filter, the counts by status, the guard of the details view and the per-drug histogram of the bar chart.

Files, one module each:

- `wrappers.dfy` — `Option`.
- `records.dfy` — the stored object, the in-memory row, hydration of one row.
- `ledger.dfy` — typed keys, decoded values, the `Store` map and the `Ledger` class (`getData`, `setData`, `isAvailable`).
- `hydration.dfy` — the specification of `loadRecords`: parsing, collecting, the stable newest-first sort.
- `lifecycle.dfy` — `Submit` and `Simulate`: functions from the environment and the ledger to an outcome and the new ledger, with the lemmas about them.
- `app.dfy` — the component's `records` state as class `App`, whose methods are proved against the functions above.
- `projections.dfy` — the filter, the counts and the details guard.
- `histogram.dfy` — the bar-chart counts, and the dictionary as the source actually builds it (see Findings).

Modelling choices:

- The ledger is a `map<Key, Bytes>`. `Bytes` is what `JSON.parse` makes of the stored bytes: zero-length, unparseable, an array of ids, or a record object.
- Keys are typed (`IndexKey`, `RecordKey(id)`). `LedgerStore.RecordKeyNameIsIndexKeyName` shows that the two key strings meet only for the id `"keys"`. Generated ids always contain a dash, so they never produce that id.
- The browser's collaborators form an `Env` value. It says whether a wallet is connected and whether `getContractWithSigner` and `getContractReadOnly` return a contract. It also says how many transactions the user signs before declining one.

The append does not de-duplicate ids, and `runFheSimulation` does not check that the record is pending. `Lifecycle.SubmitAppendsEvenIfListed` and `Lifecycle.SimulateRerunsOptimized` state this behaviour.

Some definitions have no row of their own because the rows of the members built on them state their properties:

- `Records.Latin1` (whether `btoa` accepts the medical history, lines 160-163) is covered by `Lifecycle.SubmitWrites`.
- `Projections.Matches` (the filter callback, lines 49-50) is covered by `Projections.FilteredKeepsMatches` and `Projections.AspMatchesAspirin`.
- `DrugHistogram.Add` (the `forEach` callback, lines 322-328) is covered by `DrugHistogram.TallyCounts`.
- `DrugHistogram.Truthy` (the test at line 323) is covered by `DrugHistogram.PlainStep` and `DrugHistogram.PlainTallyAgrees`.
- `LedgerStore.KeyName` (the key templates at lines 97, 112, 183, 187, 201, 260 and 284) is covered by `LedgerStore.RecordKeyNamesInjective` and `LedgerStore.RecordKeyNameIsIndexKeyName`.
- `Hydration.LoadEntry` (one iteration of the loading loop, lines 112-128) is covered by `Hydration.CollectMembership` and `Hydration.SkippedEntryYieldsNoRow`.

## Model

| member | source | states |
|---|---|---|
| `Records.StatusOrPending` | frontend/web/src/App.tsx:123 | a hydrated status is never empty: a missing or empty stored status reads as "pending", any other is kept |
| `Records.Hydrate` | frontend/web/src/App.tsx:116-124 | the row built for index entry id carries that id and a non-empty status |
| `Records.NewEntry` | frontend/web/src/App.tsx:172-179 | the object stored for a new record reads back as pending, has no results, holds the encoded payload as its data and the submission time as its timestamp |
| `Records.Optimized` | frontend/web/src/App.tsx:277-281 | the rewritten object reads back as optimized, and it equals the old object except for status and results |
| `Records.HydrateKeepsFields` | frontend/web/src/App.tsx:116-125 | a loaded row takes its id from the index key and every other field from the stored object; it is pending exactly when the stored status is missing, empty or "pending" |
| `Records.NewEntryHydratesPending` | frontend/web/src/App.tsx:172-179 | the object stored for a new record loads as pending, without results, with the submitted patient, drug, dosage, encoded payload and timestamp |
| `Records.OptimizedHydrates` | frontend/web/src/App.tsx:277-281 | a simulated object loads as the old row with status "optimized" and the new results, whatever its old status |
| `LedgerStore.Read` | frontend/web/src/App.tsx:97-100 | a key never written reads as zero-length bytes; a record key never holds an id list |
| `LedgerStore.RecordKeyNamesInjective` | frontend/web/src/App.tsx:182-185 | distinct record ids are stored under distinct key strings |
| `LedgerStore.RecordKeyNameIsIndexKeyName` | frontend/web/src/App.tsx:182-203 | the key string of record id is the index key string exactly when the id is "keys" |
| `LedgerStore.GeneratedIdKeyIsNotIndexKey` | frontend/web/src/App.tsx:170 | an id of the generated form (it contains a dash) never addresses the index key |
| `LedgerStore.Ledger.IsAvailable` | frontend/web/src/App.tsx:91 | reports the contract's availability flag |
| `LedgerStore.Ledger.GetData` | frontend/web/src/App.tsx:97 | returns what the key currently holds (zero-length bytes if never written) |
| `LedgerStore.Ledger.SetData` | frontend/web/src/App.tsx:182-185 | overwrites exactly one key; every other key and the availability flag are unchanged; reading the key back gives the value written |
| `Hydration.ParseIndex` | frontend/web/src/App.tsx:98-106 | the index fails to yield a list exactly when it holds an object; a stored array is taken as the list of ids; empty or unparseable bytes give no ids |
| `Hydration.ParseEntry` | frontend/web/src/App.tsx:112-128 | a row comes out exactly when the stored bytes parse to an object, and it carries the index id |
| `Hydration.Collect` | frontend/web/src/App.tsx:108-133 | the loop yields at most one row per index entry |
| `Hydration.SortNewestFirst` | frontend/web/src/App.tsx:135 | the sort keeps the number of rows |
| `Hydration.Loaded` | frontend/web/src/App.tsx:84-136 | the records change only when a read-only contract is present and available and the index is not an object |
| `Hydration.CollectFollowsIndex` | frontend/web/src/App.tsx:108-133 | the rows collected carry exactly the index ids whose entries load, in index order; a skipped entry does not stop the ones after it |
| `Hydration.CollectMembership` | frontend/web/src/App.tsx:110-128 | every collected row is the hydration of the object stored under an index id, and every index id whose entry parses yields its row |
| `Hydration.SkippedEntryYieldsNoRow` | frontend/web/src/App.tsx:112-128 | an index id whose bytes are empty or unparseable yields no row |
| `Hydration.SortNewestFirstSortsAndPermutes` | frontend/web/src/App.tsx:135 | the sort leaves timestamps non-increasing and is a permutation of its input |
| `Hydration.SortNewestFirstStable` | frontend/web/src/App.tsx:135 | rows with equal timestamps keep their index order |
| `Hydration.LoadedFromIndex` | frontend/web/src/App.tsx:97-136 | a successful load sets records to a newest-first permutation of the loadable entries; it holds only index ids, each row is its stored object, and no loadable entry is missing |
| `Hydration.UnparsedIndexLoadsNothing` | frontend/web/src/App.tsx:98-106 | an index that is empty or fails to parse is treated as the empty list, so the load shows no rows |
| `Hydration.FailedLoadKeepsRecords` | frontend/web/src/App.tsx:87-95 | without a read-only contract, when the contract is unavailable, or when the index cannot be iterated, the records are unchanged |
| `Dashboard.CollectRecords` | frontend/web/src/App.tsx:108-133 | the loop over the keys builds exactly the collected list of the specification |
| `Dashboard.App.constructor` | frontend/web/src/App.tsx:24 | the records start empty, and so newest first |
| `Dashboard.App.LoadRecords` | frontend/web/src/App.tsx:84-143 | records become the specified load result and stay newest first |
| `Dashboard.App.SubmitRecord` | frontend/web/src/App.tsx:145-240 | the outcome and the new ledger are those of `Submit`; records are reloaded after success and untouched after a failure |
| `Dashboard.App.RunFheSimulation` | frontend/web/src/App.tsx:242-310 | the outcome and the new ledger are those of `Simulate`; records are reloaded after success and untouched after a failure |
| `Lifecycle.Submit` | frontend/web/src/App.tsx:145-240 | whatever the outcome, no key other than the record's key and the index key changes, and the index changes only on success |
| `Lifecycle.Simulate` | frontend/web/src/App.tsx:242-310 | only a record whose stored bytes parse is ever rewritten; a failure writes nothing; no key other than the record's changes, so the index is never touched |
| `Lifecycle.SubmitWrites` | frontend/web/src/App.tsx:146-203 | without a wallet, with a medical history the encoding rejects, without a signer or without a first signature nothing is written; a rejected medical history fails as an encoding error; success needs all of these, two signatures and an index that is not an object; on success the record key holds the new pending object, the index holds the old ids plus the new one at the end, and no other key changes |
| `Lifecycle.SubmitAppendsEvenIfListed` | frontend/web/src/App.tsx:187-203 | the append keeps the old list as a prefix and adds the id even if it is already listed |
| `Lifecycle.SubmitThenLoadShowsRecord` | frontend/web/src/App.tsx:172-211 | after a successful submission, a successful reload shows the new record, pending and without results |
| `Lifecycle.OrphanedRecordIsInvisible` | frontend/web/src/App.tsx:182-203 | if the index write is declined after the record write, the record stays stored but, when its id was not already listed, no reload shows it |
| `Lifecycle.SimulateWrites` | frontend/web/src/App.tsx:242-286 | success requires a wallet, a signer, stored bytes that parse and a signature, and nothing about the status; empty bytes fail as not found; a failure writes nothing; success rewrites only the record's key, and the index is unchanged |
| `Lifecycle.SimulateRerunsOptimized` | frontend/web/src/App.tsx:260-286 | a record already optimized is simulated again and its results replaced |
| `Lifecycle.SimulateThenLoad` | frontend/web/src/App.tsx:277-294 | after a successful simulation the reload shows the listed record as optimized with the new results and its other fields as before; every row of another id that was shown before is shown after, and the other way round; the number of rows is unchanged |
| `Lifecycle.SimulateThenDetails` | frontend/web/src/App.tsx:277-316 | after a successful simulation and reload the optimized count is positive and the record's details view opens on the results |
| `Lifecycle.SubmittedHasNoDetails` | frontend/web/src/App.tsx:312-317 | a freshly submitted record has no details to show |
| `Projections.Lower` | frontend/web/src/App.tsx:49-50 | lowercasing keeps the length and folds each character on its own |
| `Projections.Includes` | frontend/web/src/App.tsx:49-50 | a string includes only terms no longer than itself |
| `Projections.FilteredRecords` | frontend/web/src/App.tsx:48-51 | the filter never returns more rows than it is given |
| `Projections.CountStatus` | frontend/web/src/App.tsx:53-54 | a status count is at most the number of records |
| `Projections.IncludesIsSubstring` | frontend/web/src/App.tsx:49-50 | `includes` holds exactly when the term occurs at some position of the string |
| `Projections.FilteredKeepsMatches` | frontend/web/src/App.tsx:48-51 | the filter returns a subsequence of the records in their order, keeping a row exactly when its lowercased drug name or patient id contains the lowercased term, and keeping every copy of a matching row |
| `Projections.EmptyTermKeepsAll` | frontend/web/src/App.tsx:48-51 | an empty search term keeps every record |
| `Projections.AspMatchesAspirin` | frontend/web/src/App.tsx:48-51 | the term "asp" matches the drug "Aspirin" regardless of case |
| `Projections.CountStatusIsPositions` | frontend/web/src/App.tsx:53-54 | a status count is the number of positions holding that status |
| `Projections.CountStatusPositive` | frontend/web/src/App.tsx:53-54 | a status count is positive exactly when some record has that status |
| `Projections.OptimizedAndPendingBounded` | frontend/web/src/App.tsx:53-54 | optimizedCount plus pendingCount is at most the number of records |
| `Projections.SortKeepsCounts` | frontend/web/src/App.tsx:53-54 | the counts are the same before and after the newest-first sort |
| `Projections.SimulationDetails` | frontend/web/src/App.tsx:312-317 | the details view opens exactly when the results are present and non-empty, and shows those results |
| `DrugHistogram.Tally` | frontend/web/src/App.tsx:320-328 | the histogram lists no more drugs than there are records |
| `DrugHistogram.MaxCount` | frontend/web/src/App.tsx:330 | the maximum taken with 1 is at least 1 |
| `DrugHistogram.TallyCounts` | frontend/web/src/App.tsx:320-328 | each drug is listed once; its count is the number of records naming it; only drugs with records are listed |
| `DrugHistogram.DrugsOfRecords` | frontend/web/src/App.tsx:320-328 | every drug of the records has count at least 1, and every counted drug appears in some record |
| `DrugHistogram.TallySumsToLength` | frontend/web/src/App.tsx:320-328 | the counts add up to the number of records |
| `DrugHistogram.MaxCountIsLargest` | frontend/web/src/App.tsx:330 | the maximum with 1 is at least 1 and at least every count, and is one of the counts when there are any |
| `DrugHistogram.HistogramMaxCount` | frontend/web/src/App.tsx:330 | maxCount is 1 for no records and otherwise the largest count |
| `DrugHistogram.RenderBarChartCounts` | frontend/web/src/App.tsx:319-331 | the forEach loop and the maximum compute the specified histogram and scale |
| `DrugHistogram.PlainStep` | frontend/web/src/App.tsx:322-328 | one step of the `forEach` on a plain object keeps the earlier own keys in order, adds at most the drug just met, and leaves every other own value alone |
| `DrugHistogram.PlainTallyOf` | frontend/web/src/App.tsx:320-328 | every own key of the object as written has a value and names the drug of some record |
| `DrugHistogram.PlainMaxCount` | frontend/web/src/App.tsx:330 | `Math.max` as written yields a number only when every value is a number, and then at least 1 and at least every value; otherwise NaN |
| `DrugHistogram.PlainTallyAgrees` | frontend/web/src/App.tsx:320-328 | the dictionary as written counts correctly whenever no drug name is a property inherited from Object.prototype |
| `DrugHistogram.ToStringDrugBreaksChart` | frontend/web/src/App.tsx:320-330 | as written, one record for the drug "toString" gets a NaN count and a NaN maxCount; the corrected histogram gives 1 and 1 |
| `DrugHistogram.ProtoDrugVanishes` | frontend/web/src/App.tsx:320-331 | as written, a record for the drug "__proto__" gets no bar; the corrected histogram lists it |

## Left out

- React state plumbing, JSX, tabs, modals, the notification banner and its `setTimeout` dismissal: user-interface glue.
- Wallet selection, `eth_requestAccounts` and the account listeners (lines 60-82): browser I/O. A connected wallet is the `provider` flag of `Env`.
- The UI rule that offers the simulation button only on pending rows (line 482). It is not part of `runFheSimulation` and is not modelled as a guard.
- JSON, UTF-8 and the base64 text of `btoa`: stored bytes are the decoded values of `Bytes`, and the "FHE-..." payload is an opaque string parameter. Only whether `btoa` throws is modelled, by `Records.Latin1` on the medical history.
- Lifecycle.Submit: the encoded payload is a parameter, so the model does not relate its text to the medical history. An encoding failure is modelled as a failure before the first write.
- JSON scalars stored under the index key. `Bytes` has no case for them: the source would iterate a JSON string index character by character and throw on a number or `null`.
- Record ids that are not generated. `Collect`, `Submit` and `Simulate` accept any id, including ids read back from the shared index. For the id `"keys"` the source reads and writes the index's own bytes, because `drug_delivery_keys` is both keys' string. The model's typed keys keep the two slots apart. `LedgerStore.RecordKeyNameIsIndexKeyName` shows that this is the only collision.
- A JSON array or scalar stored under a record key. The code never writes one. The `Store` type excludes an array, and `Bytes` has no case for a scalar. In the source, `null` makes reading its fields throw, and that entry is skipped by the catch at line 126. A number, string, boolean or array loads as a row of `undefined` fields with status "pending". `runFheSimulation` spreads such a value into a new object and succeeds.
- Stored objects that lack fields other than `status` and `simulationResults`: every other field is taken as present with its declared type.
- Transport errors from `getData` or `getContractReadOnly` (the catch at lines 130-132 and the outer catch): reads of the modelled ledger always return.
- `Date.now()`, `Math.random()`, the id generator, the randomized simulation values and the 3-second delay: the id, the clock's seconds and the results string are parameters.
- The read-modify-write race on the index, between sessions and within one session: operations are modelled one at a time. A second submission made before the first index write is mined reads the old index and drops the earlier id; the model does not capture this.
- Lifecycle.SubmitThenLoadShowsRecord, Lifecycle.SimulateThenLoad, Lifecycle.SimulateThenDetails, Dashboard.App.SubmitRecord, Dashboard.App.RunFheSimulation: each `setData` is modelled as applied before the next read. The source awaits `setData` (lines 182, 200 and 283) but never waits for the transaction to be mined, so the reload right after (lines 211 and 294) may still show the old rows. These members state what a reload shows once the writes have taken effect.
- Lifecycle.SimulateWrites: zero-length bytes are modelled as the evident intent of the length tests at lines 100, 113 and 261. If the contract's `getData` hands back `bytes` as ethers' hex string, an empty value is `"0x"` and those tests never see length 0. Hydration still ends the same way, because `JSON.parse` then throws and is caught. In `runFheSimulation` a missing record then fails at the `JSON.parse` of line 265 rather than with "Record not found". The model reports `RecordNotFound`; either way it is a failure that writes nothing.
- `toLowerCase` beyond ASCII: `Projections.Lower` folds only `A`-`Z`.
- The bar widths (line 341): floating-point division used only for rendering.
- Key order of `Object.keys` for integer-like drug names, which JavaScript lists first: the histogram lists drugs in first-appearance order.
- `JSON.parse` of the results in the details view (line 314): the view is modelled as yielding the results string.

## Findings

| source | as written | input that shows it | evidently intended | confidence | as-written member | corrected member |
|---|---|---|---|---|---|---|
| frontend/web/src/App.tsx:320-330 | `drugCounts` is a plain `{}`. A drug name inherited from Object.prototype reads as a truthy function, and `++` turns it into NaN; `"__proto__"` ignores the assignment | one record whose drug is "toString" (count NaN, maxCount NaN), or "__proto__" (no bar) | a dictionary without inherited keys: the count of each drug is its number of records, and maxCount is the largest count | high, not executed | `DrugHistogram.ToStringDrugBreaksChart` | `DrugHistogram.TallySumsToLength` |
