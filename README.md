# CURA lab portal — verified model of its rules

CURA-LAB-PORTAL is the laboratory front end of a hospital system. A React
single-page application reads bills, samples, results and test templates
from a hosted database, and lets staff enter and print results. Most of it
is query plumbing and markup. Around the queries sit deterministic rules,
and this project models them in Dafny and proves what they do:

- **Reference-range classifier and result sheet.**
  - `calculateStatus` reads a free-text reference range ("13-17", "<200",
    ">40") and labels a value normal, abnormal or critical.
  - The result-entry form keeps one entry per template parameter. It
    classifies each edit, and refuses to save when the technician or a
    required parameter is missing.
  - The printed report shows a ↑/↓ arrow beside flagged values.
- **Patient identity reconciliation.** Name, age and gender are merged in a
  fixed order from the appointments, users and walk-in tables, in two
  versions: the API's `fetchPatientInfo` and the form's own look-up. The
  calendar-age rule is modelled with them.
- **Template look-up by test name.** The name is normalised, the specimen
  prefix is stripped, and the templates are searched in three tiers.
- **Record transforms of the API layer.**
  - Lab-bill merging, filtering and sorting.
  - Billing statistics and the "mark as paid" update.
  - Insert defaults and status-update records with automatic timestamps.
  - Pending/completed bill mapping and bill counts.
- **Form-state list operations.**
  - The invoice form's line items: add, remove, edit with price auto-fill.
  - Subtotal, tax and total, and the getters that read a bill's columns.
  - The inventory page's item list: append with a generated id, filter,
    category list and counts.

Every database answer is a parameter: a sequence of rows, or an `Option`
whose `None` is a failed query. Rows are maps from column names to JS
values, with JavaScript truthiness (`js_value.dfy`). `parseFloat`,
`Number`, `parseInt`, `trim` and ASCII case mapping are modelled in
`js_number.dfy` and `js_text.dfy`. Numbers are `real`, and a NaN is `None`.
"Now", "today" and date parsing are parameters as well.

The classifier takes a `Hyphen` parameter:

- `Tight` is the production pattern in src/components/TestResultEntry.jsx:186.
  It allows no blanks around the hyphen.
- `Spaced` is the pattern of the stand-alone copy in test-status-calc.js:9.
  It allows any blanks there.

Templates store ranges as "a - b", so under the production pattern such a
range never matches and every value is normal. `SpacedRangeNeverFlaggedByForm`
proves this. The stand-alone script, by contrast, expects "40 - 70" to be
read as the bounds 40 and 70: its five test vectors
(test-status-calc.js:46-50) are proved under `Spaced` by
`ScriptTestVectors`. The rest of the model uses the production classifier.

Modules, one per file:

- `StatusCalc`: the classifier.
- `ResultEntry`: the result sheet and saving.
- `LabReport`: the report table.
- `PatientLookup`: both patient look-ups and the age rule.
- `TemplateLookup`: the template search.
- `NewApiRecords`: pending/completed bills and the lab-result status update.
- `LabBills`: lab-bill list, statistics and mark-as-paid.
- `StatusUpdates`: insert defaults, status updates and sample counts.
- `Invoice`: the invoice form and bill getters.
- `Inventory`: the inventory page.
- `JsValue`, `JsText`, `JsNumber`, `Lists`, `Wrappers`: helpers.

## Model

| member | source | states |
|---|---|---|
| StatusCalc.CalculateStatus | src/components/TestResultEntry.jsx:177-217 | a status other than normal needs a non-empty value that parseFloat reads and a range one of the three patterns matches; critical under a bounded match means the value lies outside the bounds |
| StatusCalc.BoundedFrom | src/components/TestResultEntry.jsx:186 | the leftmost match of the bounded pattern from a start on, with both bounds non-negative |
| StatusCalc.MarkedFrom | src/components/TestResultEntry.jsx:187-188 | the number after the leftmost `<` (`>`) followed by a digit, non-negative |
| StatusCalc.BoundedFromLeftmost | src/components/TestResultEntry.jsx:186 | when j is the first start at or after i where the bounded pattern matches, the match found is the one at j |
| StatusCalc.BoundedFromNone | src/components/TestResultEntry.jsx:186 | the bounded pattern finds no match iff it matches at no start |
| StatusCalc.MarkedFromLeftmost | src/components/TestResultEntry.jsx:187-188 | when j is the first start where the marker is followed by a digit, the number read is the one at j |
| StatusCalc.MarkedFromNone | src/components/TestResultEntry.jsx:187-188 | the `<`/`>` pattern finds no number iff no marker is followed by a digit |
| StatusCalc.TightReadsRange | src/components/TestResultEntry.jsx:186 | the production pattern reads "a-b" as the bounds (a, b) for numerals a and b |
| StatusCalc.MarkedReads | src/components/TestResultEntry.jsx:187-188 | the `<`/`>` pattern reads "<b" (">b") as the number b |
| StatusCalc.PermissiveDefault | src/components/TestResultEntry.jsx:178-182 | an empty value, an empty range or a value parseFloat reads as NaN is normal |
| StatusCalc.BoundedRule | src/components/TestResultEntry.jsx:190-201 | for a bounded range: normal iff min ≤ v ≤ max, critical iff v < 0.8·min or v > 1.2·max, abnormal iff out of range but within the margins; the bounds are non-negative |
| StatusCalc.UpperBoundRule | src/components/TestResultEntry.jsx:202-207 | for `<max` (no bounded match): normal iff v < max, abnormal iff max ≤ v < 1.2·max, critical iff v ≥ 1.2·max |
| StatusCalc.LowerBoundRule | src/components/TestResultEntry.jsx:208-213 | for `>min` (no bounded or `<` match): normal iff v > min, abnormal iff 0.8·min < v ≤ min, critical iff v ≤ 0.8·min |
| StatusCalc.UnparsedRangeIsNormal | src/components/TestResultEntry.jsx:186-216 | a range that matches none of the three patterns classifies every value as normal |
| StatusCalc.MarkerAbsent | src/components/TestResultEntry.jsx:187-188 | a range without the marker character never matches the marker pattern |
| StatusCalc.TightMissesFrom | src/components/TestResultEntry.jsx:186 | no position of "a - b" matches the production bounded pattern |
| StatusCalc.SpacedRangeNeverFlaggedByForm | src/components/TestResultEntry.jsx:186 | for numerals a and b, the production classifier finds no bounded match in "a - b" and labels every value normal |
| StatusCalc.ScriptReadsSpacedRange | test-status-calc.js:9 | the script's pattern reads "a - b" as the bounds (a, b) |
| StatusCalc.SpacedRangeAt | test-status-calc.js:9 | two numbers around " - " at the start of a string are matched there by the script's pattern |
| StatusCalc.FormAgreesWithScriptWithoutBlanks | test-status-calc.js:2-43 | on a range without blanks the production classifier and the script agree on every value |
| StatusCalc.BlankFreeSameMatch | test-status-calc.js:9 | on blank-free text the two bounded patterns find the same leftmost match |
| StatusCalc.BoundaryAsymmetry | test-status-calc.js:23 | v = 0.8·min is abnormal under a bounded range (strict <) but critical under `>min` (≤) |
| StatusCalc.ReversedRangeNeverNormal | test-status-calc.js:22-26 | a bounded range with min > max never labels a number normal |
| StatusCalc.NeutrophilBounds | test-status-calc.js:46-50 | the script reads "40 - 70" as the bounds 40 and 70 |
| StatusCalc.ScriptOnNeutrophilRange | test-status-calc.js:15-27 | on "40 - 70": normal in [40, 70], critical below 32 or above 84, abnormal otherwise |
| StatusCalc.ScriptTestVectors | test-status-calc.js:46-50 | the five vectors: 29 critical, 35 abnormal, 50 normal, 75 abnormal, 90 critical |
| ResultEntry.Flag | src/components/TestResultEntry.jsx:168 | the flag is '' iff normal, 'C' iff critical, 'H/L' iff abnormal |
| ResultEntry.FlagDeterminesStatus | src/components/TestResultEntry.jsx:168 | equal flags mean equal statuses |
| ResultEntry.ChangeParameter | src/components/TestResultEntry.jsx:157-175 | the edited entry holds the new value and the status and flag its range calls for, and keeps unit and range; every other entry is unchanged |
| ResultEntry.ChangeKeepsClassified | src/components/TestResultEntry.jsx:157-175 | an edit keeps every entry's status and flag consistent with its value and range |
| ResultEntry.LastEditWins | src/components/TestResultEntry.jsx:157-175 | two edits of one parameter equal the last edit alone |
| ResultEntry.EditsCommute | src/components/TestResultEntry.jsx:157-175 | edits of two different parameters commute |
| ResultEntry.BlankEntry | src/components/TestResultEntry.jsx:35-41 | a template parameter starts with an empty value, status normal and no flag |
| ResultEntry.InitParameters | src/components/TestResultEntry.jsx:23-47 | the parameters are sorted by order; every name gets the blank entry of the last parameter carrying it; the sheet is classified |
| ResultEntry.BlankSheetStep | src/components/TestResultEntry.jsx:34-42 | one more loop step keeps every entry the blank entry of the last parameter so far with its name |
| ResultEntry.BlankSheetClassified | src/components/TestResultEntry.jsx:33-42 | the finished sheet maps each name to its last parameter's blank entry and is classified |
| ResultEntry.Interpretation | src/components/TestResultEntry.jsx:245-250 | critical iff some entry is critical, abnormal iff some is abnormal and none critical, else normal |
| ResultEntry.InterpretationIsWorst | src/components/TestResultEntry.jsx:245-250 | the interpretation is the most severe status on the sheet, and normal for an empty sheet |
| ResultEntry.MissingRequired | src/components/TestResultEntry.jsx:233-235 | the required parameters whose value is not filled in: each listed one is such a parameter, and each such parameter is listed |
| ResultEntry.MissingRequiredOrder | src/components/TestResultEntry.jsx:233-235 | the missing parameters keep template order: a list split in two gives the two parts' missing parameters one after the other, and one parameter is listed iff it is required and unfilled |
| ResultEntry.MissingRequiredMultiplicity | src/components/TestResultEntry.jsx:233-235 | a required, unfilled parameter is listed as often as the template holds it; any other parameter not at all |
| ResultEntry.DisplayNames | src/components/TestResultEntry.jsx:238 | the display names of the listed parameters, in order |
| ResultEntry.MissingNamesExact | src/components/TestResultEntry.jsx:231-240 | the alert names a display name iff some required parameter with it is unfilled |
| ResultEntry.Submit | src/components/TestResultEntry.jsx:219-256 | refused iff the technician is empty or a required value is missing; the alert's names are the display names of the missing parameters in template order, repeats kept; a saved record carries the form, is completed, created by the technician, tested now, carries has_critical/has_abnormal as the sheet has them and the sheet's interpretation |
| ResultEntry.RefusalMessage | src/components/TestResultEntry.jsx:225-242 | the technician alert iff the technician is missing; otherwise the alert ends with the missing display names joined by ", " |
| ResultEntry.SavedStatusIgnoresSelector | src/components/TestResultEntry.jsx:248-255 | whatever the status selector holds, the saved status is "completed" |
| LabReport.ReportRows | src/components/LabReport.jsx:38-41 | one row per entry, with the key under "name" unless the entry has its own "name", and every stored field kept |
| LabReport.DisplayName | src/components/LabReport.jsx:128 | each character upper-cased, with '_' replaced by a blank |
| LabReport.DisplayNameShape | src/components/LabReport.jsx:128 | a display name has no underscore and no lower-case letter |
| LabReport.NumericValue | src/components/LabReport.jsx:132 | a number is itself; a text with a non-blank body that `Number` reads gives what parseFloat reads |
| JsNumber.ParseFloat | src/components/TestResultEntry.jsx:181 | text starting with a digit reads as a non-negative number |
| JsNumber.ParseInt | src/components/Inventory.jsx:104-105 | text starting with a digit reads as a non-negative integer |
| JsNumber.ToNumberAgreesWithParseFloat | src/components/LabReport.jsx:132 | where `Number` reads a text that is not blank, parseFloat reads the same number |
| LabReport.LowerBound | src/components/LabReport.jsx:132 | the number parseFloat reads before the first hyphen; 0 when it reads none or the range is not text |
| LabReport.ArrowFor | src/components/LabReport.jsx:132 | ↓ iff the value is a number below the lower bound |
| LabReport.ResultCell | src/components/LabReport.jsx:130-137 | an arrow is shown iff the status is abnormal or critical; red iff critical; the value is always shown |
| LabReport.NoNumberAfterMarker | src/components/LabReport.jsx:132 | text starting with '>' holds no number for parseFloat |
| LabReport.OneSidedRangeShowsUp | src/components/LabReport.jsx:132 | on a `>min` range the bound is 0, so a non-negative value shows ↑ |
| LabReport.ArrowOnBoundedRange | src/components/LabReport.jsx:132 | on "a-b" the bound is a, and ↓ iff the value is below a |
| PatientLookup.CalculateAge | src/components/TestResultEntry.jsx:137-147 | null iff no birth date; otherwise the year difference, less one when the birthday is still to come |
| PatientLookup.AgeCountsBirthdays | src/components/TestResultEntry.jsx:141-146 | the age is the number of birthdays up to today: the a-th has passed and the (a+1)-th has not |
| PatientLookup.AgeExamples | src/lib/newApi.js:20-30 | on 15 Jan 2026, born 20 Jan 2000 gives 25, born 10 Jan 2000 gives 26, no birth date gives null |
| PatientLookup.OrAge | src/lib/newApi.js:52 | `a \|\| b` on ages: a when it is neither null nor 0, else b |
| PatientLookup.OrText | src/lib/newApi.js:53 | `a \|\| b` on text: a when non-empty, else b |
| PatientLookup.FromAppointment | src/lib/newApi.js:49-54 | an adopted appointment row gives its patient name and source 'appointments' |
| PatientLookup.FromUser | src/lib/newApi.js:75-80 | a users row alone gives its name, age, gender and source 'users' |
| PatientLookup.FetchPatientInfo | src/lib/newApi.js:8-106 | the appointment row wins when it names the patient; otherwise the users row, and null iff no field was found; appointments are always asked first (by id when given, else MRNO); users are asked iff there is an MRNO and no adopted appointment |
| PatientLookup.AppointmentNameBlocksUsers | src/lib/newApi.js:57-67 | when the appointment row has a name, the look-up returns that name alone, incomplete, and asks only the appointments table, whatever the users row holds |
| PatientLookup.FetchPatientData | src/components/TestResultEntry.jsx:57-132 | nothing is looked up without MRNO or appointment id; a query that throws ends the look-up there and leaves the form unchanged; otherwise users are asked iff there is an MRNO, walk-ins iff there is an MRNO and no name yet; name, age and gender are each the first truthy of the users value (age: its age, else the calendar age), the walk-in value and the form's value; a filled form field is never emptied |
| TemplateLookup.Normalize | src/lib/newApi.js:517 | trimming and lower-casing never lengthen the name |
| TemplateLookup.StripPrefix | src/lib/newApi.js:521-523 | text that starts with the word (in any case) becomes a suffix of what follows the word, starting with no blank; other text is unchanged |
| TemplateLookup.CleanQuery | src/lib/newApi.js:519-524 | never longer than the normalised name; a name starting with none of serum, blood, urine is only trimmed |
| TemplateLookup.ExactHit | src/lib/newApi.js:527-538 | an exact hit on name or code is also a partial hit |
| TemplateLookup.PartialHit | src/lib/newApi.js:541-546 | the empty query hits every template |
| TemplateLookup.Lookup | src/lib/newApi.js:526-547 | the answer is one of the templates, and null iff no tier accepts any template |
| TemplateLookup.GetTemplateByTestName | src/lib/newApi.js:507-560 | the answer is one of the active templates; a failed query gives null |
| TemplateLookup.NullIffNoTierHits | src/lib/newApi.js:549-555 | null iff no template matches exactly, cleaned-exactly, or partially |
| TemplateLookup.ExactMatchWins | src/lib/newApi.js:527-530 | the first template matching the normalised name exactly is the answer |
| TemplateLookup.FirstTierWins | src/lib/newApi.js:527-530 | within the first tier, list order decides |
| TemplateLookup.SecondTierWins | src/lib/newApi.js:532-538 | with no exact hit on the normalised name, the first template matching the cleaned name exactly is the answer |
| TemplateLookup.ThirdTierWins | src/lib/newApi.js:540-547 | with no exact hit on either name, the first partial hit on the cleaned name is the answer |
| TemplateLookup.CleanedMatchWins | src/lib/newApi.js:512-538 | the same for a test name: the second tier's first hit wins when the first tier has none |
| TemplateLookup.PartialMatchWins | src/lib/newApi.js:512-547 | the same for a test name: the third tier's first hit wins when neither earlier tier has one |
| TemplateLookup.EmptyCleanedQueryTakesFirst | src/lib/newApi.js:541-547 | when the cleaned query is empty and no exact tier matches, the first template is the answer |
| TemplateLookup.EmptyQueryThirdTier | src/lib/newApi.js:541-547 | an empty cleaned query is contained in every name, so the partial tier takes the first template |
| TemplateLookup.SpecimenWordAloneCleansToEmpty | src/lib/newApi.js:520-524 | a test name that is just "serum" cleans to the empty query |
| TemplateLookup.SpecimenPrefixStripped | src/lib/newApi.js:520-524 | "serum - rest" cleans to rest |
| NewApiRecords.PendingRecord | src/lib/newApi.js:380-386 | id ← opbill_id, service_type_name ← service_name, bill_date ← now, total_amount ← unit_price \|\| 0; every other column kept |
| NewApiRecords.PendingBills | src/lib/newApi.js:377-388 | one record per bill with falsy results_entered: each listed record comes from such a bill, each such bill's record is listed, and there are as many records as such bills |
| NewApiRecords.PendingBillsOrder | src/lib/newApi.js:377-388 | the records keep the query's order: rows split in two give the two parts' records one after the other |
| NewApiRecords.PendingBillsOne | src/lib/newApi.js:377-388 | a single row gives its pending record iff its results_entered is falsy |
| NewApiRecords.CompletedRecord | src/lib/newApi.js:421-427 | id and service_type_name mapped, total_amount ← total_amount \|\| unit_price \|\| 0, lab_results replaced by the completed status, other columns kept |
| NewApiRecords.TotalAmountPrecedence | src/lib/newApi.js:385-425 | a stored total_amount wins in the completed list, while the pending list always takes unit_price \|\| 0 |
| NewApiRecords.CompletedBills | src/lib/newApi.js:421-427 | every row of the query is mapped, in order |
| NewApiRecords.GetStats | src/lib/newApi.js:452-481 | total = rows; completed counts results_entered === true; pending = total − completed; paid counts 'paid'; unpaid = total − paid; a failed query gives zeros |
| NewApiRecords.PendingListWithinPendingCount | src/lib/newApi.js:460-462 | the pending list is never longer than the pending count |
| NewApiRecords.TruthyNonBooleanNeitherListedNorCompleted | src/lib/newApi.js:461 | a bill with results_entered "yes" is counted pending, yet is neither pending-listed nor completed |
| NewApiRecords.ResultStatusUpdate | src/lib/newApi.js:240-254 | {status, ...extra}; 'verified'/'approved' always stamp their date with now, overriding the extra data; updated_at is now; nothing else is added |
| LabBills.TruthyTexts | src/lib/api.js:76-83 | at most one text per searched column |
| LabBills.TruthyTextsOfTruthyColumns | src/lib/api.js:76-83 | the texts are those of the truthy searched columns, in key order |
| LabBills.LaboratoryImpliesLab | src/lib/api.js:85 | text containing "laboratory" contains "lab" |
| LabBills.IsLabBill | src/lib/api.js:75-86 | an inpatient bill is kept iff its joined, lower-cased columns contain "lab" |
| LabBills.Tag | src/lib/api.js:91-92 | the bill with "source" set and every other column kept |
| LabBills.TagAll | src/lib/api.js:91-92 | every bill tagged, in order |
| LabBills.Combine | src/lib/api.js:90-93 | the tagged outpatient bills, then the tagged inpatient lab bills |
| LabBills.EffectiveStatus | src/lib/api.js:98 | '' when both status and payment_status are falsy |
| LabBills.StatusShadowsPaymentStatus | src/lib/api.js:98 | a truthy status decides alone; payment_status is read only when status is falsy |
| LabBills.StatusFilter | src/lib/api.js:96-101 | no-op for '' or 'all'; otherwise a bill is kept iff its effective status equals the filter case-insensitively, removing elements only |
| LabBills.SearchFilter | src/lib/api.js:103-113 | no-op for ''; otherwise a bill is kept iff some searched column of it contains the lower-cased query, removing elements only |
| LabBills.SearchHit | src/lib/api.js:105-111 | a hit needs some truthy searched column |
| LabBills.GetAllLabBills | src/lib/api.js:45-128 | fails iff the outpatient query fails; the result is the filtered combination, as a multiset, sorted newest first |
| LabBills.AddNum | src/lib/api.js:304 | addition with NaN absorbing |
| LabBills.BillTotal | src/lib/api.js:283-293 | parseFloat of the first truthy of the eight total columns; 0 when none is truthy |
| LabBills.SumTotals | src/lib/api.js:281-308 | a sum over bills none of which is counted is 0 |
| LabBills.SumTotalsNaN | src/lib/api.js:281-308 | a sum of totals is a number iff every counted total is |
| LabBills.GetStats | src/lib/api.js:270-321 | invoices = bills; paid counts the paid bills; revenue sums paid totals; pending payments sum the totals of pending bills that are not paid; a failed query, or a truthy status or payment_status that is not text (whose `toLowerCase` throws), gives zeros |
| LabBills.TallyStep | src/lib/api.js:281-309 | one forEach step keeps the running statistics equal to those of the bills seen so far |
| LabBills.StatsStep | src/lib/api.js:281-309 | how one more bill changes the paid count and both sums |
| LabBills.PaidAndPendingDisjoint | src/lib/api.js:295-308 | paid and pending-unpaid bills together never exceed the number of bills |
| LabBills.TableFor | src/lib/api.js:237 | 'inpatient' goes to inpatient_bills, everything else to opbilling |
| LabBills.MarkAsPaidUpdate | src/lib/api.js:255-262 | status and payment_status 'paid', the payment method, and today as paid_date |
| LabBills.MarkedBillCountsAsPaid | src/lib/api.js:255-262 | a bill with the update applied counts as paid and not as pending |
| StatusUpdates.WithDefaults | src/lib/api.js:435-440 | each default fills a falsy column; truthy columns and other columns are kept |
| StatusUpdates.DefaultsIdempotent | src/lib/api.js:435-440 | applying truthy defaults twice equals applying them once |
| StatusUpdates.SampleInsert | src/lib/api.js:431-440 | collection_date, status and priority take the given value when truthy, else now, 'collected' and 'normal'; status and priority are truthy; every other column is kept |
| StatusUpdates.TestResultInsert | src/lib/api.js:696-704 | result_status and tested_date take the given value when truthy, else 'pending' and now; every other column is kept |
| StatusUpdates.ReportInsert | src/lib/api.js:926-934 | status and report_date take the given value when truthy, else 'draft' and now; every other column is kept |
| StatusUpdates.BaseUpdate | src/lib/api.js:475-478 | {statusKey: status, ...extra}: the extra data wins |
| StatusUpdates.Stamped | src/lib/api.js:480-488 | a status with a date column gets now there exactly when the extra data leaves it falsy; otherwise the update is unchanged |
| StatusUpdates.SampleStatusUpdate | src/lib/api.js:473-489 | exactly {status, ...extra}, plus now under received_date, processing_started_at or completed_at for received, processing or completed when the extra data leaves it falsy; truthy given values are kept |
| StatusUpdates.ResultStatusUpdate | src/lib/api.js:737-753 | exactly {result_status, ...extra}, plus now under tested_date, verified_date or approved_date for completed, verified or approved when the extra data leaves it falsy; truthy given values are kept |
| StatusUpdates.ReportStatusUpdate | src/lib/api.js:967-981 | exactly {status, ...extra}, plus now under verified_date for reviewed or approved_date for approved when the extra data leaves it falsy; truthy given values are kept |
| StatusUpdates.PublishReport | src/lib/api.js:989-994 | status 'published', approved_by the publisher, approved_date now |
| StatusUpdates.GetSampleStats | src/lib/api.js:519-548 | totalSamples is the row count; each status and priority count is the number of rows holding that value; urgent + stat ≤ total; a failed query gives zeros |
| StatusUpdates.PairBounded | src/lib/api.js:531-532 | two different values are held by at most all rows together |
| StatusUpdates.SixValuesBounded | src/lib/api.js:523-530 | rows holding six different values of one column number at most all rows |
| StatusUpdates.SampleStatusCountsBounded | src/lib/api.js:523-530 | the six status counts sum to at most totalSamples |
| Invoice.PriceOf | src/components/Billing.jsx:92 | the price of the first list entry with that name, none iff no entry has it |
| Invoice.InvoiceForm.constructor | src/components/Billing.jsx:15-21 | the form opens with one blank row |
| Invoice.InvoiceForm.AddTest | src/components/Billing.jsx:74-79 | one blank row appended, the others unchanged |
| Invoice.InvoiceForm.RemoveTest | src/components/Billing.jsx:81-84 | exactly row index removed, order kept, one shorter; an index out of range changes nothing |
| Invoice.InvoiceForm.ChangeTest | src/components/Billing.jsx:86-99 | the field of row index is set; choosing a listed test fills its price, otherwise the price is kept; other rows unchanged |
| Invoice.InvoiceForm.Reset | src/components/Billing.jsx:136-142 | the form is back to one blank row |
| Invoice.LinePrice | src/components/Billing.jsx:105 | a falsy price counts 0, a number counts itself |
| Invoice.Subtotal | src/components/Billing.jsx:105 | the subtotal is a number iff every line price is |
| Invoice.SubtotalAppend | src/components/Billing.jsx:105 | the subtotal of two runs of rows is the sum of their subtotals |
| Invoice.SubtotalOne | src/components/Billing.jsx:105 | a single row's subtotal is its line price |
| Invoice.BlankRowAddsNothing | src/components/Billing.jsx:74-79 | adding a blank row leaves the subtotal unchanged |
| Invoice.RemovedRowLeavesSubtotal | src/components/Billing.jsx:81-84 | removing a row with a numeric price takes exactly that price off a numeric subtotal |
| Invoice.Totals | src/components/Billing.jsx:105-107 | tax = 0.18·subtotal and total = 1.18·subtotal, each NaN iff the subtotal is |
| Invoice.ParseTests | src/components/Billing.jsx:174-183 | text gives its JSON parse or [] on failure; a list gives itself; nothing gives [] |
| Invoice.FirstUsable | src/components/Billing.jsx:202 | the first column value that is truthy and not 'null'; none iff there is no such column |
| Invoice.PatientId | src/components/Billing.jsx:192-204 | the first usable identifier of the five columns, in column order, or 'N/A' when none is usable |
| Invoice.NullTextFallsThrough | src/components/Billing.jsx:202 | a 'null' text in patient_mrno is skipped for a usable patient_id |
| Invoice.BillId | src/components/Billing.jsx:232-235 | the first truthy of bill_number, opbill_id, bill_id, id, else 'N/A' |
| Invoice.TotalAmount | src/components/Billing.jsx:206-216 | parseFloat of the first truthy of six amount columns, else 0 |
| Invoice.TotalAmountAgreesWithStats | src/components/Billing.jsx:206-216 | where one of the six columns is truthy, the table's amount equals the statistics' total |
| Invoice.NetAmountOnlyInStats | src/components/Billing.jsx:206-216 | a bill with only net_amount shows 0 in the table, yet the statistics add net_amount |
| Invoice.MarkPaidOffer | src/components/Billing.jsx:441 | an offered, not yet paid bill counts as pending; after marking it is no longer offered |
| Inventory.ItemId | src/components/Inventory.jsx:102 | an id is "INV" followed by at least three characters |
| Inventory.ItemIdInjective | src/components/Inventory.jsx:102 | different numbers give different ids |
| Inventory.IdsDistinct | src/components/Inventory.jsx:102 | ids numbered by position are pairwise distinct |
| Inventory.InitialIdsNumbered | src/components/Inventory.jsx:18-97 | the six starting items carry INV001 to INV006 in order |
| Inventory.NewItem | src/components/Inventory.jsx:101-108 | id from count + 1, the form's fields, parsed quantity and reorder level, status 'adequate', restocked today |
| Inventory.InventoryList.constructor | src/components/Inventory.jsx:18-97 | the list starts with the six items, ids numbered |
| Inventory.InventoryList.Submit | src/components/Inventory.jsx:99-109 | exactly the new item appended, numbered count + 1; earlier items unchanged; ids stay numbered by position and distinct |
| Inventory.FilterItems | src/components/Inventory.jsx:136-142 | an item is shown iff it matches the case-insensitive search and the category filter |
| Inventory.FilterItemsOrder | src/components/Inventory.jsx:136-142 | shown items keep list order (a split list gives the two parts' shown items one after the other), and a matching item is shown as often as the list holds it |
| Inventory.EmptySearchShowsAll | src/components/Inventory.jsx:136-142 | an empty search with 'all' shows every item, in order |
| Inventory.Dedup | src/components/Inventory.jsx:144 | each value once, and only values that occur |
| Inventory.DedupFirstOccurrence | src/components/Inventory.jsx:144 | values appear in first-occurrence order |
| Inventory.Categories | src/components/Inventory.jsx:144 | 'all' first, then every item category, each once, and nothing else |
| Inventory.CategoriesFirstOccurrence | src/components/Inventory.jsx:144 | after 'all', categories appear in the order of their first item: an earlier category's first item comes before any item of a later one |
| Inventory.CategoryFilterExact | src/components/Inventory.jsx:140 | choosing a category other than 'all' shows only items of that category |
| Inventory.ThreeStatusesBounded | src/components/Inventory.jsx:146-151 | three different statuses count at most all items together |
| Inventory.GetStats | src/components/Inventory.jsx:146-151 | total is the list length; each status count is the number of items with that status; critical + low + adequate ≤ total |
| Inventory.SubmitCountsAdequate | src/components/Inventory.jsx:106 | a submitted item adds one to the adequate count and leaves every other status count unchanged |
| Inventory.ExpiringSoon | src/components/Inventory.jsx:244-245 | false for 'N/A'; otherwise true iff the expiry date parses and lies before now plus 90 days |
| Inventory.ExpiringSoonStays | src/components/Inventory.jsx:244-245 | an item expiring soon now is still expiring soon later |

## Left out

- Database I/O: every query, insert and update, and the server-side
  filters (`.ilike`, `.or`, `.eq`, ordering). Query answers are
  parameters. Where the source catches a failed query, the member takes
  an `Option` and `None` is the failure.
- Presentation: rendering, modals, badge colours, status icons, locale date
  formatting, and the PDF export of the report, which uses a foreign
  library.
- Floating point: numbers are exact reals. A JS double can disagree at an
  exact boundary such as 1.1·1.2, or in the 18% tax.
- `parseFloat`/`Number`/`parseInt`: exponents, `Infinity`, hexadecimal and
  non-ASCII digits are not read. Case mapping is ASCII only.
- Dates and clocks: "now", "today" and date parsing (`dateOf`, `parseDate`)
  are parameters. Time zones are not modelled.
- JSON: `JSON.parse` is a parameter that may fail.
- Asynchrony and React state batching: every handler is one sequential
  step.
- Invoice.InvoiceForm.ChangeTest: the source writes into the row object
  that the old array shares. The model replaces the row, so this aliasing
  is not modelled.
- Null and undefined are the same `Null`.
- LabBills.StatusFilter and LabBills.SearchFilter: where the source calls
  `toLowerCase` on a column (src/lib/api.js:98 and 105-111), a non-string
  value throws in JavaScript. These filters read it as the empty text
  instead: such a bill's effective status is '' and its columns hit no
  search. `GetStats` does model the throw and its zeros.
- LabReport.NumericValue: JavaScript converts null to 0 but undefined to
  NaN. The model has one `Null` and reads it as NaN, so a null value
  shows ↑ where JavaScript shows ↓ against a positive lower bound.
- LabBills.NumberText: a number joined into the lab search text is written
  with its integer digits only. No such text contains a letter of "lab".
- TruthyTexts: its own contract states only a length bound; which texts
  it gives, in which order, is `TruthyTextsOfTruthyColumns`.
- Lists.SortBy: states that the result is sorted by the key and is a
  permutation of the input. It does not state that elements with equal
  keys keep their order, as JavaScript's stable `sort` does.
- LabBills.GetAllLabBills: states the result as a multiset of the filtered
  list and sorted newest first. It does not state the order among bills
  with the same date.
- The `walk_in_patients` step in src/lib/newApi.js is commented out in the
  source, so `FetchPatientInfo` has no such step.
- TemplateLookup.Normalize: its contract states only a length bound. What
  it means (trim, then lower case) is its definition, and the look-up
  lemmas use it.
- TemplateLookup.StripPrefix: its contract does not say that exactly the
  blanks and one optional hyphen after the word are removed.
  `SpecimenPrefixStripped` proves it for "serum - rest".
- TemplateLookup.GetTemplateByTestName: its contract states only that the
  answer is one of the templates, and null when the query failed. The tiers are stated by lemmas about it:
  `NullIffNoTierHits`, `ExactMatchWins`, `CleanedMatchWins` and
  `PartialMatchWins`.
- Inventory.ItemId: its contract states only the "INV" prefix and the
  length. Its distinctness is `ItemIdInjective`, and its zero padding is
  proved about the padding helper.
- The bill record built by the invoice form's submit handler, and the
  getters `getPatientName`, `getTaxAmount` and `getBillDate` in
  src/components/Billing.jsx, are not part of this model.
- `categories` lists 'all' twice when an item's category is itself 'all';
  the contract of `Categories` allows this and does not single it out.
- The maintenance scripts and the whole-page components are not part of
  this model: SampleTracking, ReportGeneration, TestResults, PendingBills,
  Dashboard, Sidebar and App.
