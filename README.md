# Payments analytics: training-data builder and query server

This project is a Dafny model of the two halves of a small payments-analytics system.

**The training-data builder** is `create_mcp_training_data` in
`mcp-data-processing/create_training_data.py`. It reads one CSV table per metadata entry and
finds its paired metric columns: each `tpt_<period>` (transaction count) column with its
`tpv_<period>` (transaction volume) partner. It turns each pair into one long row per table
row, labelled with the period in `YYYY-MM` form. Both numbers are cleaned with `clean_number`,
each row is tagged with the file's type, and only rows with some activity are kept. The
records of all files are concatenated into one snapshot.

**The query server** is `server.py`. It loads that snapshot once and caches it (`_load_data`).
The month argument is validated with `strptime("%Y-%m")` (`_ensure_yyyy_mm`). Rows are
filtered by month prefix, product and client id (`_filter_rows`). On top of that the server
answers three operations:

- a monthly listing (`get_data_product_monthly`);
- per-client TPV totals (`calculate_tpv_total`);
- per-client TPT totals (`calculate_tpt_total`).

Where the code as written misbehaves (see Findings), the model holds two definitions: one
of the code as written (`Reshape.ReshapedAsWritten`, `TrainingData.BuildAsWritten`,
`Query.FilterRowsAsWritten`) and a corrected one (`Reshape.Reshaped`, `TrainingData.Build`,
`Query.FilterData`). The methods and the server's operations are proved against the code as
written. Bridge lemmas state where the two agree, so the properties proved of the corrected
definitions carry over there.

Modules, in dependency order:

- `Wrappers`: `Option` and `Result`.
- `Sequences`: order-preserving filter, concatenation and subsequences.
- `Text`: decimal digits and their values, `str(n)` and zero padding, `startswith`,
  `str.replace`, and ASCII lower-casing.
- `NumberCleaning`: `clean_number`.
- `YearMonth`: `_ensure_yyyy_mm`.
- `Periods`: the `%b_%Y` period label and its fallback.
- `Reshape`: the per-file reshaping.
- `TrainingData`: the file-by-file driver.
- `Query`: `_filter_rows` and the monthly listing.
- `Tally`: the per-client loops.
- `Server`: the cache, as class `Analytics`, and the four operations that load before answering.

In these places the code behaves in ways a caller may not expect; the model follows the code:

- The server loads the rows before it validates the month. A failed load therefore hides a
  malformed month (`Server.Analytics.FilterRows`).
- A readable file raises KeyError outside the `try` when it has paired columns but lacks
  `brand_id` or `Product Category`, and also when it has no paired column at all (see
  Findings). Either aborts the whole run: nothing is written and later files are not read
  (`Reshape.ReshapeAsWrittenFails`, `TrainingData.CollectAsWrittenFails`).
- A month argument such as `2025-1` is accepted, and then used verbatim as the date prefix
  (see Findings).
- A period suffix that does not parse keeps its own text, with `-` for `_`. The result need not
  be a `YYYY-MM` month (`Periods.FullMonthNameExample`).
- In `calculate_tpv_total`, a client whose rows all have amount 0 still gets an entry, of 0
  (`Tally.TpvEntryCanBeZero`). Only the TPT entries are guaranteed positive (`Tally.TptCounts`).

## Model

| member | source | states |
|---|---|---|
| NumberCleaning.CleanNumber | mcp-data-processing/create_training_data.py:20-23 | A positive result implies that every character of the input is a digit, `"` or `,`. The result is never negative. |
| NumberCleaning.CleanNumberRejects | mcp-data-processing/create_training_data.py:22-23 | Any character other than a digit, `"` or `,` (a minus sign, a point, a space) makes the result 0. |
| NumberCleaning.CleanNumberReadsDigits | mcp-data-processing/create_training_data.py:22-23 | If the input holds only digits and separators, and at least one digit, the result is the decimal value of the digits left after the separators are deleted. |
| NumberCleaning.CleanNumberOfSeparators | mcp-data-processing/create_training_data.py:22-23 | A blank cell, or one holding only `"` and `,`, leaves nothing to read and gives 0. |
| NumberCleaning.CleanNumberOfGrouped | mcp-data-processing/create_training_data.py:19-23 | A number written with thousands commas, bare or in double quotes, cleans back to that number. |
| NumberCleaning.CleanNumberOfDecimalText | mcp-data-processing/create_training_data.py:20-23 | The plain decimal text of `n` cleans back to `n`. |
| NumberCleaning.SuperscriptRaises | mcp-data-processing/create_training_data.py:23 | As written, `"²"` passes `isdigit` but makes `int` raise. The corrected function gives 0. |
| NumberCleaning.CleanNumberAsWritten | mcp-data-processing/create_training_data.py:20-23 | Definition of the string branch as written, with None where `int` raises; it has no contract of its own. Its properties are stated by NumberCleaning.SuperscriptRaises and NumberCleaning.AsWrittenAgrees. |
| NumberCleaning.AsWrittenAgrees | mcp-data-processing/create_training_data.py:23 | On text without superscript digits, the code as written returns exactly the corrected result. |
| Periods.PeriodLabel | mcp-data-processing/create_training_data.py:57-66 | Definition of the `month` label of a column suffix; it has no contract of its own. Its properties are stated by Periods.LabelOfMonthSuffix, Periods.ParsedLabelIsValidMonth, Periods.FallbackLabel, Periods.LabelHasNoUnderscore and Periods.OutOfRangeFallsBack. |
| Periods.ParseMonthYear | mcp-data-processing/create_training_data.py:62 | A successful `%b_%Y` parse yields a month 1-12 that lies inside the pandas Timestamp range. |
| Periods.MonthNumber | mcp-data-processing/create_training_data.py:62 | The month found is the one whose abbreviation is the name. "Not found" means the name is no abbreviation. |
| Periods.MonthNumberOfAbbreviation | mcp-data-processing/create_training_data.py:62 | Each of the twelve abbreviations is read as its own month. |
| Periods.LabelOfMonthSuffix | mcp-data-processing/create_training_data.py:61-63 | `<mon>_<yyyy>`, with the month name in any letter case and a year in range, parses to that year and month. Its label is the zero-padded `yyyy-mm`. |
| Periods.ParsedSuffixShape | mcp-data-processing/create_training_data.py:62 | Conversely, a suffix that parses is a month abbreviation, `_` and the four digits of the parsed year. |
| Periods.ParsedLabelIsValidMonth | mcp-data-processing/create_training_data.py:62-63 | The label of a parsed suffix passes the server's `%Y-%m` validation, as the same year and month. |
| Periods.FallbackLabel | mcp-data-processing/create_training_data.py:64-66 | A suffix that does not parse is labelled by the replacement of every `_` with `-`. |
| Periods.LabelHasNoUnderscore | mcp-data-processing/create_training_data.py:57-66 | No label, parsed or fallen back, contains `_`. |
| Periods.OutOfRangeFallsBack | mcp-data-processing/create_training_data.py:62-66 | A year before 1677 lies outside pandas' nanosecond Timestamp range (1677-09-21 to 2262-04-11), which `errors='coerce'` is assumed to turn into NaT. The label is then the suffix text with `-` for `_`. |
| Periods.FallbackOfTwoParts | mcp-data-processing/create_training_data.py:64-66 | `<a>_<b>` that does not parse, with no `_` inside either part, is labelled `<a>-<b>`. |
| Periods.ParsedExample | mcp-data-processing/create_training_data.py:56-63 | `sep_2025` is labelled `2025-09`. |
| Periods.UpperCaseExample | mcp-data-processing/create_training_data.py:62-63 | `SEP_2025` is labelled `2025-09`: the month name matches in any letter case. |
| Periods.FallbackExample | mcp-data-processing/create_training_data.py:64-66 | `2025_09` does not parse and is labelled `2025-09` by the fallback. |
| Periods.FullMonthNameExample | mcp-data-processing/create_training_data.py:64-66 | `sept_2025` is no abbreviation and is labelled `sept-2025`, which is not a `YYYY-MM` month. |
| Reshape.ReshapeTable | mcp-data-processing/create_training_data.py:44-89 | The pairing loop gives what the code as written gives: the KeyError of a table with no pair (line 80), the KeyError of a paired table lacking a key column (line 69), or the records. When it does not raise, the result is the corrected reshaping. |
| Reshape.PairedColumnsIff | mcp-data-processing/create_training_data.py:45-55 | A pair is produced exactly for a `tpt_` column whose `tpv_` partner is among the columns. Unmatched columns contribute nothing. |
| Reshape.PairsMembers | mcp-data-processing/create_training_data.py:52-57 | A pair is found exactly for a scanned column whose partner is among the `tpv_` columns. It carries that column, its partner and its label. |
| Reshape.PartnerIsTpvColumn | mcp-data-processing/create_training_data.py:53 | Replacing `tpt_` with `tpv_` in a `tpt_` column gives a `tpv_` column. |
| Reshape.IndexOf | mcp-data-processing/create_training_data.py:69 | The position found holds the name. "Not found" means the name is no column. |
| Reshape.UnpivotLength | mcp-data-processing/create_training_data.py:52-77 | The long table has one row per pair and table row. |
| Reshape.UnpivotAt | mcp-data-processing/create_training_data.py:52-77 | Row `i * rows + k` of the long table comes from table row `k` under pair `i`: blocks are in column order, rows in input order. |
| Reshape.UnpivotMembers | mcp-data-processing/create_training_data.py:52-77 | A long row is present exactly when some pair and some table row give it. |
| Reshape.BlockMembers | mcp-data-processing/create_training_data.py:69-75 | A long row is in a pair's block exactly when some table row gives it under that pair. |
| Reshape.Reshaped | mcp-data-processing/create_training_data.py:44-89 | Definition of the corrected per-file reshaping, where a table without any pair contributes nothing; it has no contract of its own. Its properties are stated by Reshape.ReshapeFails, Reshape.ReshapeMembers, Reshape.ReshapeTagsAndFilters and Reshape.ReshapeInOrder. |
| Reshape.ReshapedAsWritten | mcp-data-processing/create_training_data.py:44-89 | Definition of the per-file reshaping as written; it has no contract of its own. Its properties are stated by Reshape.ReshapeTable, Reshape.ReshapeAsWrittenFails, Reshape.NoPairAborts and Reshape.AsWrittenAgrees. |
| Reshape.ReshapeFails | mcp-data-processing/create_training_data.py:52-69 | Corrected, a readable table fails exactly when some column is paired and `brand_id` or `Product Category` is missing. |
| Reshape.ReshapeAsWrittenFails | mcp-data-processing/create_training_data.py:48-80 | As written, a readable table fails exactly when no column is paired (the error of line 80, exactly in that case) or when `brand_id` or `Product Category` is missing. |
| Reshape.ReshapeMembers | mcp-data-processing/create_training_data.py:52-87 | A record is emitted exactly when it is active and is the cleaned long row of some pair and table row. Every emitted record is active, and no active one is dropped. |
| Reshape.ReshapeTagsAndFilters | mcp-data-processing/create_training_data.py:84-87 | Every emitted record carries the file's type and has `tpt > 0` or `tpv > 0`. |
| Reshape.ReshapeInOrder | mcp-data-processing/create_training_data.py:77-87 | The emitted records are a subsequence of the cleaned long table, in its order. |
| Reshape.NoPairAborts | mcp-data-processing/create_training_data.py:48-80 | With no paired column, the code as written raises KeyError at the cleaning step. The corrected behaviour emits no records. |
| Reshape.AsWrittenAgrees | mcp-data-processing/create_training_data.py:48-80 | With at least one paired column, the code as written and the corrected behaviour agree. |
| Reshape.SepColumns | mcp-data-processing/create_training_data.py:53-63 | `tpt_sep_2025` is a `tpt_` column, its partner is `tpv_sep_2025`, and its label is `2025-09`. |
| Reshape.NoPairExample | mcp-data-processing/create_training_data.py:45-80 | A table whose only metric column is `tpt_sep_2025` raises KeyError as written. The corrected behaviour emits nothing. |
| Reshape.ScenarioExample | mcp-data-processing/create_training_data.py:52-87 | Two rows under `tpt_sep_2025`/`tpv_sep_2025`, one with `120` and `45,000` and one with zeros, give the single record (120, 45000, `2025-09`). |
| Reshape.GroupedExample | mcp-data-processing/create_training_data.py:22-23 | The cell `45,000`, and the cell `"45,000"` whose quotes are part of its text, both clean to 45000. |
| TrainingData.Build | mcp-data-processing/create_training_data.py:33-103 | Definition of the corrected run: the frames of the readable files, then the message and the snapshot. It has no contract of its own; its properties are stated by the TrainingData lemmas marked "Corrected run". |
| TrainingData.CreateTrainingData | mcp-data-processing/create_training_data.py:26-103 | The loop over the metadata returns what the code as written returns: the KeyError that aborted the run, the failure message, or the written snapshot and its message. When it does not raise, that is the corrected run. |
| TrainingData.CollectErrorPersists | mcp-data-processing/create_training_data.py:33-89 | Corrected run: once a file raises KeyError, the files after it change nothing. |
| TrainingData.CollectAppend | mcp-data-processing/create_training_data.py:33-89 | Corrected run: processing two lists of files one after the other appends their frames, unless the second raises. |
| TrainingData.UnreadableSkipped | mcp-data-processing/create_training_data.py:37-42 | Corrected run: an unreadable file anywhere in the list changes nothing: it is skipped and the others are still processed. |
| TrainingData.CollectPerFile | mcp-data-processing/create_training_data.py:33-89 | Corrected run: there is one frame per readable file, in metadata order. Frame `j` holds the records of the `j`-th readable file. |
| TrainingData.AllUnreadable | mcp-data-processing/create_training_data.py:37-42 | Corrected run: when no file can be read, no frame is collected. |
| TrainingData.NothingProcessedIff | mcp-data-processing/create_training_data.py:91-92 | Corrected run: the failure message is returned, with nothing written, exactly when no file could be read. |
| TrainingData.ReportedCount | mcp-data-processing/create_training_data.py:103 | Corrected run: the success message reports the number of records in the written snapshot. |
| TrainingData.SnapshotMembers | mcp-data-processing/create_training_data.py:89-101 | Corrected run: a record is in the snapshot exactly when it is a record of some readable file. |
| TrainingData.FramesMembers | mcp-data-processing/create_training_data.py:89-94 | Corrected run: a record is in the concatenated frames exactly when it is a record of some readable file. |
| TrainingData.OnlyTablesAndTypesMatter | mcp-data-processing/create_training_data.py:33-35 | Corrected run: the run depends only on each file's table and type: `product_name` and the file name do not affect the records. |
| TrainingData.CollectIgnoresNames | mcp-data-processing/create_training_data.py:33-35 | Corrected run: the collected frames depend only on each file's table and type. |
| TrainingData.PairlessFileAbortsRun | mcp-data-processing/create_training_data.py:48-103 | One readable file without a paired column aborts the run as written. Corrected, it writes an empty snapshot and reports 0 records. |
| TrainingData.CollectAsWritten | mcp-data-processing/create_training_data.py:33-89 | Definition of the loop over the metadata as written; it has no contract of its own. Its properties are stated by TrainingData.CollectAsWrittenErrorPersists, TrainingData.CollectAsWrittenFails and TrainingData.CollectAsWrittenAgrees. |
| TrainingData.BuildAsWritten | mcp-data-processing/create_training_data.py:33-103 | Definition of the whole run as written; it has no contract of its own. Its properties are stated by TrainingData.CreateTrainingData, TrainingData.BuildAsWrittenAgrees, TrainingData.AsWrittenNothingProcessedIff, TrainingData.AsWrittenSnapshotMembers and TrainingData.PairlessFileAbortsRun. |
| TrainingData.CollectAsWrittenErrorPersists | mcp-data-processing/create_training_data.py:33-89 | As written, once a file raises KeyError, the files after it change nothing. |
| TrainingData.CollectAsWrittenFails | mcp-data-processing/create_training_data.py:33-89 | As written, the run raises exactly when some readable file's reshaping raises. |
| TrainingData.CollectAsWrittenAgrees | mcp-data-processing/create_training_data.py:33-89 | A run as written that does not raise collects the same frames as the corrected run. |
| TrainingData.BuildAsWrittenAgrees | mcp-data-processing/create_training_data.py:91-103 | A run as written that does not raise returns and writes what the corrected run does. |
| TrainingData.AllPairedAgrees | mcp-data-processing/create_training_data.py:33-89 | When every readable file has a paired column, the run as written is the corrected run. |
| TrainingData.AsWrittenNothingProcessedIff | mcp-data-processing/create_training_data.py:91-92 | As written, the failure message is returned, with nothing written, exactly when no file could be read. |
| TrainingData.AsWrittenSnapshotMembers | mcp-data-processing/create_training_data.py:89-103 | As written, a written snapshot holds exactly the records of the readable files, and the message reports their number. |
| Sequences.ConcatMembers | mcp-data-processing/create_training_data.py:94 | An element is in the concatenation exactly when it is in one of the frames. |
| Sequences.ConcatLength | mcp-data-processing/create_training_data.py:94 | The concatenation is as long as all the frames together. |
| YearMonth.EnsureYearMonth | server.py:22-26 | The validation either passes or fails with the message `month must be in YYYY-MM format, e.g. 2025-07`. |
| YearMonth.ParseYearMonth | server.py:24 | A successful parse yields a year of at least 1 and a month 1-12. |
| YearMonth.AcceptsEveryMonth | server.py:24 | Every year 1-9999 and month 1-12 is accepted, with a two-digit or one-digit month, and read back as that year and month. |
| YearMonth.AcceptsOnlyMonths | server.py:24 | Conversely, an accepted string is a four-digit year below 10000, `-`, and the month written with two digits or without padding. |
| YearMonth.CanonicalIsSameMonth | server.py:24 | The `YYYY-MM` spelling of an accepted month is seven characters, accepted, and the same month. |
| YearMonth.CanonicalOfSevenChars | server.py:24 | An accepted string of seven characters is already its own `YYYY-MM` spelling. |
| YearMonth.AcceptedExamples | server.py:22-26 | `2025-07`, `2025-7` and `2025-12` are accepted. |
| YearMonth.RejectedExamples | server.py:22-26 | `2025-13`, `2025-00`, `2025-07-01`, `0000-01`, `2025/09` and `25-07` are rejected. |
| Query.KeepAllMembers | server.py:35-41 | The list comprehensions in sequence keep exactly the rows satisfying all their conditions. |
| Query.CheckMonth | server.py:35-36 | The month check passes exactly when the month is absent, empty, or accepted by `%Y-%m`. |
| Query.FilterRowsAsWritten | server.py:34-42 | Definition of `_filter_rows` as written, on the loaded rows; it has no contract of its own. Its properties are stated by Query.FilterRowsAsWrittenMembers, Query.FilterRowsAsWrittenInOrder, Query.NoFiltersNoChange and Query.NumericClientIdNeverMatches. |
| Query.FilterData | server.py:34-42 | Definition of the corrected filter, by the month it validated; it has no contract of its own. Its properties are stated by Query.FilterDataMembers, Query.FilterDataInOrder and Query.AsWrittenAgreesOnCanonicalMonth. |
| Query.FilterRowsAsWrittenMembers | server.py:34-42 | The filter fails exactly on a given month that validation rejects, with the validation message. Otherwise a row is returned exactly when it is a data row whose date starts with the month argument's text, of the product and of the text client id, each absent or empty argument imposing nothing. |
| Query.FilterRowsAsWrittenInOrder | server.py:34-42 | The filtered rows are a subsequence of the loaded data, in their original order. |
| Query.FilterDataMembers | server.py:34-42 | Corrected, the filter fails on the same months, with the same message. Otherwise a row is returned exactly when it is a data row dated within the validated month (its zero-padded `YYYY-MM` text), of the product and of the text client id. |
| Query.FilterDataInOrder | server.py:34-42 | Corrected, the filtered rows are a subsequence of the loaded data, in their original order. |
| Query.NoFiltersNoChange | server.py:35-41 | With every argument absent or empty, the data come back unchanged, as written and corrected. |
| Query.NumericClientIdNeverMatches | server.py:40-41 | A row whose client id is a JSON number is never matched by the text client-id filter. |
| Query.AsWrittenAgreesOnCanonicalMonth | server.py:35-37 | When the month is absent, empty or seven characters long, the filter as written equals the corrected one. |
| Query.ShortMonthIsJanuary | server.py:24 | `2025-1` passes validation as January 2025. |
| Query.ShortMonthExample | server.py:35-37 | For month `2025-1`, the filter as written keeps the October row and drops the January one. The corrected filter keeps January only. |
| Query.MonthlyListing | server.py:52-60 | Definition of `get_data_product_monthly` on the loaded rows; it has no contract of its own. Its properties are stated by Query.MonthlyListingMembers and Query.MonthlyListingOfMonth. |
| Query.MonthlyListingMembers | server.py:52-60 | The listing fails exactly on a malformed non-empty month. Otherwise it names its resource, echoes its arguments, lists exactly the data rows whose date starts with the month text and of that product, in order, and its `count` is the number of rows listed. |
| Query.MonthlyListingOfMonth | server.py:35-60 | For a month written `YYYY-MM`, the listing succeeds and holds exactly the data rows dated within that month and of that product. |
| Tally.PerClient | server.py:73-76 | The per-client loop fails exactly when a filtered row lacks `clientid`. Otherwise each key is a client id that appears, and each entry is that client's total. |
| Tally.SumEntries | server.py:77 | The loop over the dictionary returns the sum of its values. |
| Tally.Accumulate | server.py:73-77 | The two loops fail with KeyError exactly when a row lacks `clientid`. Otherwise the keys are exactly the client ids that appear, each entry is its client's total, and the grand total is both the sum of the entries and the total over all rows. |
| Tally.TalliesStep | server.py:74-76 | One iteration of the loop keeps the dictionary equal to the tallies of the rows scanned so far. |
| Tally.IsReport | server.py:66-106 | Description of what either tool returns on the loaded rows; it has no contract of its own. It is tied to the loops by Tally.CalculateTotal, and shown to admit exactly one answer by Tally.ReportIsDetermined. Tally.TptCounts and Tally.TpvEntryCanBeZero state consequences of it. |
| Tally.CalculateTotal | server.py:72-83 | On the loaded rows, each report meets its description over the rows the code as written selects: the filter's error, the KeyError, or the metric name, the echoed filters, the per-client totals and the grand total. |
| Tally.ReportIsDetermined | server.py:72-83 | The description admits exactly one answer. |
| Tally.TptCounts | server.py:97-100 | TPT counts rows: the grand total is the number of filtered rows, and every entry counts at least one row. |
| Tally.TpvEntryCanBeZero | server.py:74-76 | A client whose only row has amount 0 or no amount gets a TPV entry of 0. |
| Tally.ClientKeyNormalizes | server.py:75 | A numeric client id and its decimal text share one entry. A null client id is keyed `None`. |
| Server.Analytics.constructor | server.py:12 | The server starts with an empty cache and no load. |
| Server.Analytics.LoadData | server.py:14-19 | With rows cached, the call returns them and changes nothing. Otherwise a successful read caches and returns the file's rows. A failed read fails and caches nothing. |
| Server.Analytics.FilterRows | server.py:29-42 | The call loads, then answers the filter as written on the cached rows. A failed load fails before the month is checked. |
| Server.Analytics.GetDataProductMonthly | server.py:51-60 | The call loads, then answers the monthly listing of the cached rows, filtered as written. |
| Server.Analytics.CalculateTpvTotal | server.py:66-83 | The call loads, then returns the TPV report of the cached rows, filtered as written. |
| Server.Analytics.CalculateTptTotal | server.py:89-106 | The call loads, then returns the TPT report of the cached rows, filtered as written. |
| Server.RepeatedQueries | server.py:14-19 | After a first successful load, a second query is answered by the filter as written on the cached rows, whatever the file then holds, and there is still one load. |

## Left out

- File I/O (`pd.read_csv`, reading and writing JSON, `open`) and `print`: what a read gives is an
  input. A failed CSV read is `None`. The written snapshot is the returned record sequence. A
  failed or malformed `data.json` is `None`.
- The numeric branch of `clean_number` (line 24), and pandas type inference on the metric
  columns. The model reads every metric cell as text. A column pandas infers as numeric goes
  through the numeric branch, where `-5` stays `-5` and `1.9` becomes 1.
- Non-ASCII digits. The model reads only `0`-`9` as digits, so a cell of other Unicode decimal
  digits (such as `٣`), which `isdigit` accepts and `int` reads, gives 0 in the model. Of the
  characters that pass `isdigit` but make `int` raise, `NumberCleaning.CleanNumberAsWritten`
  knows only superscript one, two and three. Others, such as `⁰`, `⁴`-`⁹` and `①`, are outside
  the model.
- Unicode case folding beyond ASCII, and the process locale of `%b`.
- pandas DataFrame mechanics (index reset, column renaming, dtypes): the frames are modelled as
  sequences of records. Every cell is taken as its CSV text (`Reshape.CellOf`). The key columns
  `brand_id` and `Product Category` are read with `dtype=str`, so pandas keeps them as text too,
  leading zeros included. But pandas turns an empty cell into NaN, and so too a cell holding one
  of its default missing-value strings (`NA`, `N/A`, `NULL`, `null`, `None`, `nan`, `NaN`,
  `#N/A` and the like). `json.dump` writes such a value as `NaN`. In the same cells the model
  has `""` or the literal text. The in-place updates of `df_long`'s columns are modelled as value
  transformations (`Reshape.Normalize`, the filter on `Reshape.Active`).
- The Timestamp range. `Periods.InTimestampRange` assumes pandas' nanosecond Timestamp range,
  1677-09-21 to 2262-04-11, and assumes that `pd.to_datetime(..., errors='coerce')` turns the
  first day of a month outside it into NaT. The installed pandas version is not part of this
  model (`Periods.OutOfRangeFallsBack`).
- Duplicate column names: pandas renames them, so the header is taken as a list of distinct
  names, and `Reshape.IndexOf` takes the first.
- JSON values the query model does not represent: null, float or text amounts (`int()` on them
  raises or truncates), non-string dates and products (compared through `str()` or `==`), and
  boolean client ids.
- Dictionary insertion order of `per_client`: the model uses a `map`, which has no order.
- Aliasing of the cached list (every caller gets the same Python list object), and thread
  safety of the cache: the model is single-threaded.
- The FastMCP server object, its resource and tool decorators, `mcp.run()` and `DATA_PATH`.
- The module-level call at the end of create_training_data.py and the `FILE_METADATA` and
  `OUTPUT_FILENAME` constants, which are only example input.
- Reshape.ReshapeTable, TrainingData.CreateTrainingData, Reshape.ReshapedAsWritten,
  Reshape.ReshapeAsWrittenFails, TrainingData.CollectAsWritten, TrainingData.CollectAsWrittenFails,
  TrainingData.BuildAsWritten: "as written" here means as written with the cleaning corrected.
  These members clean the metric cells with the corrected `NumberCleaning.CleanNumber`. On a
  cell holding a superscript digit the code's `int` raises ValueError outside the `try` and
  aborts the run; the model reads that cell as 0. On every cell without superscript one, two or
  three the two cleanings agree (`NumberCleaning.AsWrittenAgrees`). See Findings.
- Query.FilterDataMembers, Query.FilterDataInOrder: state the corrected month filter, which
  compares the date with the zero-padded `YYYY-MM` text of the month. The code as written
  compares it with the argument text (`Query.FilterRowsAsWrittenMembers`). The two agree on
  every seven-character month (`Query.AsWrittenAgreesOnCanonicalMonth`). See Findings.
- Reshape.ReshapeFails: states the failure condition of the corrected reshaping. The code's own
  condition is `Reshape.ReshapeAsWrittenFails`, which adds the table without any pair.
- Reshape.ReshapeMembers, Reshape.ReshapeTagsAndFilters, Reshape.ReshapeInOrder: describe the
  corrected per-file behaviour. Where the code as written does not raise it gives the same
  records (`Reshape.ReshapeTable`'s second clause, `Reshape.AsWrittenAgrees`).
- TrainingData.CollectErrorPersists, CollectAppend, UnreadableSkipped, CollectPerFile,
  AllUnreadable, NothingProcessedIff, ReportedCount, SnapshotMembers, FramesMembers,
  OnlyTablesAndTypesMatter, CollectIgnoresNames: stated of the corrected run. They carry over
  to every run as written that does not raise (`TrainingData.BuildAsWrittenAgrees`,
  `TrainingData.CollectAsWrittenAgrees`). The failure message and the snapshot contents are
  also restated of the code as written (`TrainingData.AsWrittenNothingProcessedIff`,
  `TrainingData.AsWrittenSnapshotMembers`).

## Findings

| source | as written | input that shows it | evidently intended | confidence | as-written member | corrected member |
|---|---|---|---|---|---|---|
| mcp-data-processing/create_training_data.py:23 | `value.isdigit()` guards `int(value)`, but `isdigit` also accepts superscript digits, which `int` rejects with ValueError | the cell `"²"` | the function never fails and gives 0 for text that is not a number | high (not executed) | NumberCleaning.CleanNumberAsWritten, NumberCleaning.SuperscriptRaises | NumberCleaning.CleanNumber |
| mcp-data-processing/create_training_data.py:80 | a readable file with no `tpt_`/`tpv_` pair leaves `df_long` as the empty `pd.DataFrame()`, and `df_long['tpt']` raises KeyError outside the `try`, aborting the whole run | a file whose header is `brand_id`, `Product Category`, `tpt_sep_2025` | the file contributes no records and the other files are still processed | high (not executed) | Reshape.ReshapedAsWritten, Reshape.NoPairExample, TrainingData.BuildAsWritten, TrainingData.PairlessFileAbortsRun | Reshape.Reshaped, TrainingData.Build |
| server.py:35-37 | the month is validated with `strptime("%Y-%m")`, which accepts an unpadded month, but the rows are then filtered by the raw argument as a date prefix | month `2025-1` with dates `2025-01-15` and `2025-10-03` | the rows of the validated month, January 2025 (rejecting the unpadded month, as the error message's `YYYY-MM` suggests, would be the other reading) | medium (not executed) | Query.FilterRowsAsWritten, Query.ShortMonthExample | Query.FilterData |
