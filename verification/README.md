# compta-agent ticket pipeline in Dafny

This project models the batch bookkeeping pipeline of `app.py` in compta-agent.
The pipeline takes a batch of expense-receipt PDFs and turns the usable ones into
Sage ledger lines, stamps them, and reports the unusable ones. The model covers:

- **Segmentation** (`Segmenter`): `split_pdf_pages` and the splitting loop at the
  top of `process_tickets`. A submission with more than one page becomes one
  unit per page, named `<stem>_page<k>.pdf`. Any other submission passes through
  as it is. A file the PDF reader cannot open aborts the batch.
- **Extraction adapter** (`Extraction`): `analyze_ticket_with_claude`. It covers
  the choice between a text request and a document request, the classification
  of the service's answer (`Erreur API (<status>)`, `Réponse IA invalide`), and
  the removal of Markdown code fences. Text extraction, the HTTP call and
  `json.loads` are oracles bundled in `Services`.
- **Normalisation, numbering and balance repair** (`Balance`): lines 392-403 of
  `process_tickets`. This is the `T<k>` reference, the coercion of amounts, the
  one-cent tolerance, the repair of the first `51200000` line, and the imbalance
  alert.
- **Ledger layout** (`Ledger`): the logical rows that `create_excel` writes. These
  are the header, one row per entry, a blank row, the control row, and the
  optional `ALERTES` block.
- **The batch controller** (`Pipeline`): the loop at lines 383-427 as a class
  `Batch` whose fields are the accumulators, the same step as a function
  `Step`/`Run`, the assembly of the three optional outputs and of the summary
  (lines 429-464), and `process_tickets` itself (`ProcessTickets`).

Amounts are whole numbers of cents. So the repair test `abs(d - c) > 0.01` reads
"the totals differ by more than one cent". The balance test `abs(d - c) < 0.01`
(control row, summary) reads "the totals are equal". In this reading a one-cent
gap is neither repaired nor balanced (`Balance.OneCentGapIsKept`). The source
compares floating-point sums, and there the one-cent case can go either way (see
"Left out").

The repair does not always restore balance, although balance of every group
(debit equals credit within 0.01) is the invariant it is there for. Line 403
sets the first bank line's credit to the group's total debit. The group then balances exactly when
that line carried all of the group's credit (`Balance.ReconcileBalancesIff`).
With no bank line, the group is emitted unchanged and still unbalanced
(`Balance.ReconcileWithoutBank`). The model follows the code. The batch-level
balance flag is proved only under the hypothesis that every group balances
(`Pipeline.BalancedWhenGroupsBalance`).

All source references below are to `app.py`.

## Model

| member | source | states |
|---|---|---|
| Strings.TrimStart | app.py:178-179 | the `\s*` after a fence: the result is a suffix of the input, all dropped characters are Python whitespace, and the result does not start with whitespace |
| Strings.TrimEnd | app.py:179 | the trailing half of `.strip()`: the result is a prefix, all dropped characters are whitespace, and the result does not end with whitespace |
| Strings.FormatCents | app.py:400 | `{x:.2f}` on an amount in cents: at least four characters, a point before the last two characters, those two are digits, and a leading minus sign exactly for negative amounts |
| Strings.FormatCentsRoundTrip | app.py:400 | the rendered totals in an alert determine the amounts: reading the text back gives the amount |
| Strings.NatToStringInjective | app.py:393 | different counters render differently in `f'T{ticket_num}'` and in page names |
| Segmenter.FileName | app.py:129 | `Path(filename).name`: the result never contains a separator and is never `.`; a bare name is its own name |
| Segmenter.FileNameOfJoin | app.py:129 | the name of `<dir>/<name>` is `<name>` |
| Segmenter.Stem | app.py:129 | `Path(filename).stem`: a prefix of the file name with no separator; a name without a dot is its own stem |
| Segmenter.StemDropsSuffix | app.py:129 | the stem of `<base>.<ext>`, with a non-empty base and a dot-free, non-empty extension, is `<base>` |
| Segmenter.PageNameStem | app.py:129 | a page name is a bare file name whose stem is the submission's stem followed by `_page<k>` |
| Segmenter.SplitPdfPages | app.py:116-132 | the loop builds exactly `SplitPages(pages, filename)` |
| Segmenter.SplitPagesAt | app.py:121-130 | a split of N pages has N units; unit k holds page k alone, is named `<stem>_page<k+1>.pdf` and records the submission's name as its original filename |
| Segmenter.SplitPagesRoundTrip | app.py:116-132 | concatenating the split units' pages gives back the document's pages in order |
| Segmenter.PageNamesDistinct | app.py:129 | two pages of one submission never get the same name |
| Segmenter.SplitSubmissions | app.py:374-381 | the splitting loop returns exactly `Segment(files)` |
| Segmenter.SegmentIsConcat | app.py:374-381 | when every file opens, the units are each submission's units in submission order: its pages split when it has more than one page, the submission unchanged otherwise |
| Segmenter.SegmentRoundTrip | app.py:374-381 | the units' pages, concatenated, are the submitted pages in order: nothing is lost, duplicated or reordered |
| Segmenter.SegmentFailsOnFirstMalformed | app.py:375-376 | segmentation fails exactly when some file cannot be opened, and then names the first such file |
| Segmenter.SegmentUnitsWhenReadable | app.py:374-381 | segmentation succeeds exactly when every file can be opened |
| Segmenter.SegmentNamesFirstMalformed | app.py:375-376 | a failed segmentation names an unreadable file, all files before it being readable |
| Extraction.ChooseRequest | app.py:137-156 | a text request exactly when the stripped text is longer than 50 characters, carrying the text; otherwise a document request carrying the pages |
| Extraction.Classify | app.py:174-184 | a non-200 status gives a rejection `Erreur API (<status>)` with no entries; an unparseable de-fenced payload gives `Réponse IA invalide` with no entries; a parsed payload is returned unchanged, including a rejection with its own reason; an accepted answer or any entries come from the parser |
| Extraction.ApiErrorInjective | app.py:175 | the reason of an API error identifies the status |
| Extraction.Analyze | app.py:135-184 | one call per unit with the request chosen by mode; a non-200 answer gives the rejection `Erreur API (<status>)` with no entries; a 200 answer the parser cannot read gives `Réponse IA invalide` with no entries; a 200 answer parsed to P gives P, so a well-formed exploitable answer makes the unit accepted |
| Extraction.RemoveFences | app.py:178-179 | one `re.sub(fence + r'\s*', '', s)`: never longer than its input; what it does to fenced and unfenced text is stated by `RemoveFencesPrefix`, `OpeningFenceRemoved` and `ClosingFenceRemoved` |
| Extraction.StripFences | app.py:178-179 | both substitutions and `.strip()`: never longer than the answer; `FencedPayload` and `UnfencedPayload` state what it recovers |
| Extraction.FencedPayload | app.py:178-179 | a payload wrapped in a `json` code fence is recovered as its stripped body |
| Extraction.UnfencedPayload | app.py:178-179 | a payload without backticks is only stripped of surrounding whitespace |
| Extraction.OpeningFenceRemoved | app.py:178 | the first substitution removes the opening fence and the whitespace after it, and keeps a closing bare fence |
| Extraction.ClosingFenceRemoved | app.py:179 | the second substitution removes a closing bare fence after backtick-free text |
| Extraction.RemoveFencesPrefix | app.py:178-179 | fence removal copies backtick-free text unchanged and continues after it |
| Balance.Normalize | app.py:393-395 | a line gets reference `T<k>`, a missing amount becomes 0, a present amount is kept, and date, journal, account and label are untouched |
| Balance.NormalizeEntries | app.py:392-395 | the loop normalises every line of the group, in order, and no other |
| Balance.RefInjective | app.py:393 | different counters give different references |
| Balance.Balanced | app.py:462 | the tolerance test holds exactly when total debit equals total credit |
| Balance.ImbalanceAlertNamesGroup | app.py:400 | the alert `T<k> (<file>) : Desequilibre detecte (<d> != <c>)` (`ImbalanceAlert`) names its group: `T<k>` can be read back from it |
| Balance.AlertGroupOfRef | app.py:400 | a reference followed by a space reads back as its group number |
| Balance.FirstBank | app.py:401 | the index of the first `51200000` line, or none when there is no such line |
| Balance.Reconcile | app.py:397-403 | same number of lines; when the totals differ by more than a cent, exactly one alert naming `T<k>`, the file and both totals, whether or not a bank line exists; within tolerance, nothing changes and no alert; only the first bank line's credit can change, and it becomes the total debit |
| Balance.ReconcileKeepsDebit | app.py:403 | the repair never changes the total debit |
| Balance.ReconcileBalancesIff | app.py:397-403 | after a repair, the group balances exactly when the bank line carried the group's whole credit |
| Balance.ReconcileWithoutBank | app.py:399-402 | with no bank line, an unbalanced group is emitted unchanged, still unbalanced, with one alert |
| Balance.OneCentGapIsKept | app.py:399 | a one-cent gap is neither repaired nor reported, and the group is not balanced by the test of line 462 |
| Ledger.LedgerLayout | app.py:244-308 | the header first; entry i on row i+1; then a blank row; then the control row with both totals, reading OK exactly when they are equal; with alerts, a blank row, the `ALERTES` heading and one row per alert in order |
| Ledger.CreateExcel | app.py:244-308 | the rows written are exactly `LedgerRows(entries, alerts)` |
| Ledger.WriteEntries | app.py:252-277 | one row per entry in order, with the running totals equal to the sums of the amounts |
| Ledger.WriteAlerts | app.py:306-308 | one row per alert, in order |
| Pipeline.RejectionAlert | app.py:421 | the alert `!! <file> : <reason>` names no group, so it is never taken for an imbalance alert |
| Pipeline.Step | app.py:384-427 | one unit: every accumulator only grows, the counter moves on exactly when the unit is accepted, and one record is added; `StepConsistent`, `StepDetail` and `StepAlerts` state the rest |
| Pipeline.Run | app.py:383-427 | the loop over all units: one record per unit, and the counter ends one past the number of exploitable answers |
| Pipeline.Assemble | app.py:429-464 | each output exists exactly when its list is non-empty; the ledger's rows are `LedgerRows` of all accepted lines and the batch's alerts; the bundle is the stamped documents merged in order; the report lists the rejections; the summary counts accepted and rejected units, carries both totals, and is balanced exactly when they are equal |
| Pipeline.BatchOutcome | app.py:364-464 | the call fails exactly when some file cannot be opened, and then names the first such file |
| Pipeline.Batch.constructor | app.py:366-371 | the accumulators start empty with the counter at 1 |
| Pipeline.Batch.ProcessUnit | app.py:383-427 | one loop iteration: the new state is `Step` of the old state, the unit and the adapter's answer, and the batch invariants are kept |
| Pipeline.Batch.Record | app.py:389-427 | updating the accumulators with one answer is `Step` and keeps the invariants |
| Pipeline.RepairGroup | app.py:397-403 | the imperative repair computes exactly `Reconcile` |
| Pipeline.ProcessUnits | app.py:383-427 | the loop over all units leaves the batch in state `Run(units, answers)` |
| Pipeline.Batch.Finish | app.py:429-464 | the outputs and the summary are `Assemble` of the state after the loop |
| Pipeline.ProcessTickets | app.py:364-464 | the whole call computes `BatchOutcome(files, services, timestamp)` |
| Pipeline.StepConsistent | app.py:389-427 | one step keeps the invariants: counter one past the accepted count, accepted records numbered `T1..TA`, ledger lines equal to the accepted records' lines, each tagged with its record's reference, and rejection list equal to the rejected records |
| Pipeline.RunConsistent | app.py:383-427 | the invariants hold after any number of units |
| Pipeline.RunAppendOnly | app.py:383-427 | processing more units only appends to the ledger lines, stamped documents, rejections, alerts and records, and never lowers the counter, so earlier groups are never touched again |
| Pipeline.StepAlerts | app.py:399-421 | one step appends exactly the unit's alerts (`UnitAlerts`) |
| Pipeline.AlertGroups | app.py:383-427 | the alerts unit by unit, in processing order, each unit numbered one past the exploitable answers before it: one group per unit |
| Pipeline.RunAlerts | app.py:383-427 | the alert list is the units' alerts in processing order: one `!! <file> : <reason>` per rejected unit, one imbalance alert naming `T<k>` per accepted unit whose lines differ by more than a cent, and nothing else |
| Pipeline.StepDetail | app.py:410-427 | one step appends exactly one record, the one describing its unit |
| Pipeline.RunDetails | app.py:410-427 | one record per unit in processing order; the record has the unit's filename; it is accepted exactly when the answer was exploitable; an accepted record carries `T<k>`, k counting the accepted units up to it, and the unit's reconciled lines; a rejected one carries the stated or default reason |
| Pipeline.NumberingWithoutGaps | app.py:389-417 | the accepted records carry `T1..TA` in order with no gap and no reuse, and the counter ends at A+1 |
| Pipeline.RunPartition | app.py:389-427 | every unit is accepted or rejected, never both: records = units = accepted + rejected |
| Pipeline.StampedBundleRoundTrip | app.py:407-408 | the stamped bundle, with its overlays removed, is the accepted units' pages in processing order |
| Pipeline.RunPresence | app.py:405-420 | the ledger lines are non-empty exactly when an accepted unit proposed a line; the stamped list exactly when a unit was accepted; the rejection list exactly when a unit was rejected |
| Pipeline.OutputsPresence | app.py:432-451 | the ledger exists exactly when an accepted unit proposed at least one line; the stamped bundle exactly when a unit was accepted; the report exactly when a unit was rejected |
| Pipeline.SummaryCounts | app.py:453-459 | total = accepted + rejected = number of units after splitting, and one record per unit |
| Pipeline.SummaryMatchesLedger | app.py:460-462 | whenever there are ledger lines, the ledger exists, its control row shows the summary's totals, and both it and `equilibre` say balanced exactly when total debit equals total credit |
| Pipeline.GroupsBalanceBatch | app.py:460-462 | if every accepted group balances, the whole ledger balances |
| Pipeline.BalancedWhenGroupsBalance | app.py:462 | in any state that keeps the loop invariants, `equilibre` is set whenever every accepted group balances after repair |

## Left out

- The HTTP call to the messages endpoint (headers, model, timeout) is an oracle `Services.call` from request to status and text. An exception it raises, such as a timeout, would abort the batch; that is not modelled.
- `json.loads` is an oracle `Services.parse` that returns a proposal or nothing. A payload that parses to something other than an object, which would make `result.get` raise, is not modelled. Neither are null or non-string values in it.
- The truth value of `exploitable` and of zero amounts (`x or 0`) is decided by the parser oracle.
- PDF bytes are not modelled. A document is a sequence of abstract pages. Opening a file either gives its pages or fails. Text extraction (PyMuPDF) is an oracle. Stamping wraps each page in `Stamped`, and merging is concatenation.
- Floating-point amounts and `round(float(x), 2)` are not modelled. Amounts are integer cents, and an amount that `float` cannot convert is not modelled.
- Balance.OneCentGapIsKept: states the integer-cents reading only. The source compares sums of doubles, so near the one-cent boundary its test can go either way: `abs(1.15 - 1.14)` is `0.010000000000000009`, which line 399 repairs and reports, while `abs(10.02 - 10.01)` is not above `0.01`.
- Spreadsheet fonts, fills, borders, number formats and column widths are not modelled; only the logical rows are.
- The layout of the rejection report PDF (`create_inexploitable_report`: pagination, truncation, the processing date) is not modelled. The report's content is the list of rejections.
- E-mail polling and sending, the Flask routes and the writing of files to the output folder are I/O and are not modelled. The timestamp from `datetime.now()` is a parameter.
- Segmenter.Stem: follows `pathlib`'s rule up to Python 3.13, where a trailing dot does not start a suffix (`Path("foo.").stem == "foo."`). From Python 3.14 a lone trailing dot is a suffix; that rule is not modelled.
- Segmenter.FileName: only `/` separates path components, as on POSIX. Like `PurePosixPath.name`, it skips trailing separators and `.` components and keeps a final `..` as the name.
- Entries always carry an account code. A proposed line without `compte`, on which line 401 would raise, is not modelled.
- The entry dictionaries that `results_detail` and `all_ecritures` share in the source are values here. Nothing changes them after they are appended, so both views hold the same lines.
