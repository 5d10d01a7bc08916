# BankSheets in Dafny

BankSheets imports bank-statement CSV exports into a SQLite store and
reconciles a new batch against what is already committed. This project models
the core of that pipeline and proves what it promises:

- **Header locator** (`TransactionReader`). `SkipAheadDictReader` finds the
  header line after a bank's summary preamble, and `__enter__` skips to it.
- **Field mapper** (`BanksheetConverter`). A fixed table maps the exact
  ordered header tuple of a file to the canonical SQL keys.
- **Canonical record** (`Entry`, with `Dates` and `Text` for the parts of
  `datetime` and `str` it relies on). This is the frozen, ordered
  `DataEntry` dataclass: a strict `%m/%d/%Y` date, a float amount and two
  descriptions.
- **Duplicate grouping and resolution**:
  - `Common.GetDuplicateGroups` is the `itertools.groupby` loop over the rows
    of the duplicate view.
  - `Cli.KeepDuplicates` is the automatic policy.
  - `Cli.QueryUser` is the interactive policy. Typed answers arrive as a
    sequence of responses.
- **Staging store** (`SqlCommands.Store`). This class holds the
  `description`, `potential_transaction` and `bank_transaction` tables, and
  its methods are the SQL commands.
- **Pipelines** (`Cli.InsertAsWritten`, `AppMain.Run`). Their order is:
  descriptions, staging, resolution, removal, preserving, clearing.
- **Alias commands** and the **report** line formatter (`Cli`).
- **Legacy per-bank path**:
  - `InstitutionParser.Decide` chooses a reader from the path and the first
    line.
  - `Institution` holds the three readers that reshape rows into the blob
    layout.
  - `LegacyEntry` is the blob-built record, with its sign-flipping amount and
    its date-only comparisons.

Python exceptions are modelled as values (`Result<T, Error>` with `Error`
naming the exception class). Foreign computations are parameters:

- `dateutil`'s date test is `isDate`.
- `float()` is `toFloat`, and `repr` of a float is `showFloat`.
- The constructor a per-bank reader calls is `build`.

Tables and lists are sequences, in table or insertion order.

## Model

| member | source | states |
|---|---|---|
| Text.Split | src/banksheets/transaction_reader.py:49-50 | `str.split` never returns an empty list and no piece holds the separator, so the `len(split_line) > 0` guard always holds |
| Text.StripIdempotent | src/banksheets/institution_parser.py:8 | stripping twice is stripping once |
| Text.StrLessIsStrictTotal | src/banksheets/entry.py:5 | Python's string order is a strict total order |
| TransactionReader.GetHeaderLineIndex | src/banksheets/transaction_reader.py:42-65 | the scan returns exactly `HeaderIndex`: the first line whose first field is not a date and whose next line's first field is, or -1 |
| TransactionReader.HeaderIndexCharacterised | src/banksheets/transaction_reader.py:42-65 | -1 exactly when no non-date line is followed by a date line (so for empty or one-line input); otherwise the index is in `[0, |lines|-2]`, its line is not a date, the next is, and no earlier pair qualifies |
| TransactionReader.HeaderIndexUnique | src/banksheets/transaction_reader.py:57-59 | any qualifying line with none before it is the result |
| TransactionReader.Enter | src/banksheets/transaction_reader.py:26-36 | raises `NoHeaderException` exactly when no header exists; otherwise the file cursor is advanced past exactly `header_line_index` lines and the rows start with the header followed by a dated line |
| TransactionReader.LaterLinesIgnored | src/banksheets/transaction_reader.py:48-54 | once a header is found, appended lines never change the result |
| TransactionReader.OnlyFirstFieldMatters | src/banksheets/transaction_reader.py:49-51 | lines with the same first comma-field give the same result |
| TransactionReader.LeadingDateLineSkipped | src/banksheets/transaction_reader.py:52-59 | a date line with no candidate before it does not abort; the search continues below it |
| TransactionReader.SummaryPreambleSkipped | src/banksheets/transaction_reader.py:42-65 | `k` non-date lines followed by a dated row put the header at `k - 1` |
| BanksheetConverter.Keys | src/banksheets/banksheet_converter.py:39-40 | `_to_key` is the column names in order |
| BanksheetConverter.Get | src/banksheets/banksheet_converter.py:44 | `row.get` returns only a value stored under that key |
| BanksheetConverter.ConvertKnownIff | src/banksheets/banksheet_converter.py:32-36 | conversion succeeds exactly for the two known header tuples; any other tuple raises `MissingBankHeaderException` carrying that tuple |
| BanksheetConverter.PermutedHeaderUnknown | src/banksheets/banksheet_converter.py:32-40 | a reordering of a known header is unknown |
| BanksheetConverter.ConvertChecking | src/banksheets/banksheet_converter.py:13-17 | the checking header gives exactly date, description and amount with their values; the balance is dropped |
| BanksheetConverter.ConvertCard | src/banksheets/banksheet_converter.py:5-12 | the card header gives date, transaction_id, description and amount with their values; the address is dropped |
| BanksheetConverter.ChangeHeadersDistinct | src/banksheets/banksheet_converter.py:43-44 | with distinct targets the comprehension yields one pair per non-`None` column, in mapping order |
| BanksheetConverter.ConvertedRowShape | src/banksheets/banksheet_converter.py:43-44 | output keys are the non-`None` targets (distinct, all in `_SQL_KEYS`, one per kept column), each value unaltered from its source column |
| Dates.ParseMonth | src/banksheets/entry.py:13 | a `%m` field reads as a month in 1..12 |
| Dates.ParseDay | src/banksheets/entry.py:13 | a `%d` field reads as a day in 1..31 |
| Dates.ParseYear | src/banksheets/entry.py:13 | a `%Y` field reads as a year in 0..9999 |
| Dates.ParseDate | src/banksheets/entry.py:13 | `strptime` yields only dates `datetime` can hold |
| Dates.BeforeIsStrictTotal | src/banksheets/entry.py:5-10 | chronological order is a strict total order |
| Dates.ParseFormatRoundTrip | src/banksheets/entry.py:13-18 | formatting a date with `%m/%d/%Y` and parsing it back gives the same date |
| Dates.FormatParseRoundTrip | src/banksheets/entry.py:13-18 | a ten-character date text without spaces that parses is reproduced by formatting its date (a padded text such as `01/ 5/2020` parses but formats as `01/05/2020`) |
| Dates.PostedDateIsNotADate | tests/test_entry.py:19-22 | "Posted Date" does not parse |
| Entry.Create | src/banksheets/entry.py:12-14 | construction succeeds exactly when the date parses and the amount converts; otherwise `ValueError`; fields are the parsed values, `extra_desc` defaults to "" |
| Entry.CreateRoundTrip | src/banksheets/entry.py:12-18 | rebuilding a record from its formatted date and its amount text gives it back |
| Entry.HeaderRowRejected | tests/test_entry.py:19-22 | a header row raises `ValueError` |
| Entry.LessIsStrictTotalOrder | src/banksheets/entry.py:5-10 | the derived order is a strict total order, and equality is structural over all four fields |
| Entry.DateDecidesFirst | src/banksheets/entry.py:5-10 | an earlier date sorts first whatever the other fields are |
| Entry.ToStringFields | src/banksheets/entry.py:16-22 | the string form splits on tabs into the padded date, amount, description and extra description, and the date reads back |
| Common.FromKeywords | src/banksheets/ui/common.py:58-60 | `DataEntry(**item)`: an unknown key raises `TypeError`; with all keys known, a missing `date`, `amount` or `description` raises `TypeError`; any failure is `TypeError` or `ValueError`; a built record holds the parsed date, the converted amount, the description and `extra_desc` (default "") of the item |
| Common.ConvertAll | src/banksheets/ui/common.py:58-65 | succeeds unless some row raises `TypeError`; same length and order; a slot is `None` exactly when its row raised `ValueError`, else holds the row's record |
| Common.ConvertCsvDataToDataEntry | src/banksheets/ui/common.py:56-67 | `None` gives `[]`; a list is converted slot by slot |
| Common.CardKeysRejected | src/banksheets/ui/common.py:60 | a row under the converter's card keys (`transaction_id`) raises `TypeError` |
| Common.RunEnd | src/banksheets/ui/common.py:83 | each run of equal keys is maximal |
| Common.GetDuplicateGroups | src/banksheets/ui/common.py:81-92 | the nested loops build exactly `Runs`, one group per maximal run of equal columns 1-4; the copy at src/banksheets/app/main.py:51-63 is the same code |
| Common.CollectRun | src/banksheets/ui/common.py:84-88 | the inner loop stops at the end of the maximal run, collects its ids in order and keeps the last row's saved count |
| Common.RunsKeepEveryId | src/banksheets/ui/common.py:83-90 | the groups' id lists concatenate to column 0 of the rows, in order; the copy at src/banksheets/app/main.py:54-61 is the same code |
| Common.RunsShape | src/banksheets/ui/common.py:81-92 | no rows give no groups, at most one group per row, groups non-empty, adjacent keys differ |
| Common.RunsGroupRows | src/banksheets/ui/common.py:85-88 | each group covers consecutive rows sharing its key; its saved count is column 5 of its last row; the copy at src/banksheets/app/main.py:57-59 is the same code |
| SqlCommands.IndexOf | src/banksheets/sql_commands.py:46 | the first position of a name, or -1 exactly when absent |
| SqlCommands.DescriptionId | src/banksheets/sql_commands.py:46 | the description sub-select gives an id exactly for a known name, the id of that name |
| SqlCommands.Present | src/banksheets/sql_commands.py:24-27 | the `None` slots are skipped and nothing else |
| SqlCommands.PresentAppend | src/banksheets/sql_commands.py:25-27 | skipping keeps input order |
| SqlCommands.InsertOrIgnore | src/banksheets/sql_commands.py:29-31 | existing names keep their place and ids, the table becomes the union, names stay unique |
| SqlCommands.DescriptionIdStable | src/banksheets/sql_commands.py:29-31 | a known name keeps its id when more are inserted |
| SqlCommands.Stage | src/banksheets/sql_commands.py:44-47 | one staged row per tuple, consecutive ids, description id looked up by name |
| SqlCommands.Saves | src/banksheets/sql_commands.py:62-66 | the committed copy keeps date, amount and description of every staged row, in order |
| SqlCommands.FirstMatch | src/banksheets/sql_commands.py:74-76 | `LIMIT 1` gives the first matching staged row, or none when no row matches |
| SqlCommands.DeleteIdMembers | src/banksheets/sql_commands.py:87-88 | deleting an id leaves exactly the rows with another id |
| SqlCommands.DeleteIdAt | src/banksheets/sql_commands.py:87-88 | with unique ids exactly one row goes |
| SqlCommands.RemoveOneFirstMatch | src/banksheets/sql_commands.py:83-88 | an entry deletes the first matching staged row and only it; with no match nothing changes |
| SqlCommands.RemoveOneKeepsOrder | src/banksheets/sql_commands.py:83-90 | the remaining rows stay in order |
| SqlCommands.RemoveEachBounds | src/banksheets/sql_commands.py:73-90 | `n` entries delete at most `n` rows, only staged rows, and keep ids increasing |
| SqlCommands.DeleteIdsExactly | src/banksheets/sql_commands.py:87-88 | deleting a list of ids leaves exactly the rows whose id is not listed |
| SqlCommands.DeleteIdKeepsOrder | src/banksheets/sql_commands.py:87-88 | deleting keeps ids increasing |
| SqlCommands.DeleteIdKeepsValid | src/banksheets/sql_commands.py:87-88 | deleting keeps ids increasing and below the next id |
| SqlCommands.StagedAfterDescriptions | src/banksheets/sql_commands.py:18-47 | after descriptions are inserted, every staged row carries its record's description id (never `NULL`) and a date text that reads back as the record's date |
| SqlCommands.Store.constructor | src/banksheets/sql_commands.py:8-15 | a new store has every table empty |
| SqlCommands.Store.InsertDescriptions | src/banksheets/sql_commands.py:18-32 | `None` raises `TypeError` and changes nothing; otherwise the present records' descriptions are inserted or ignored, and nothing else changes |
| SqlCommands.Store.InsertPotentialTransactions | src/banksheets/sql_commands.py:35-49 | stages one row per present record, in order, and changes nothing else |
| SqlCommands.Store.PreservePotential | src/banksheets/sql_commands.py:61-70 | every staged row is appended to the committed table, then staging is empty |
| SqlCommands.Store.ClearPotential | src/banksheets/app/main.py:149 | staging ends empty; the other tables are unchanged |
| SqlCommands.Store.RemovePotential | src/banksheets/sql_commands.py:73-90 | for each entry in turn, its first matching staged row is deleted |
| SqlCommands.Store.RemovePotentialIds | src/banksheets/sql_commands.py:87-88 | deletes the listed staged ids one statement at a time |
| Cli.AutoPart | bin/banksheets-cli.py:62-68 | a committed key queues all its new ids; an uncommitted one all but the last |
| Cli.KeepDuplicates | bin/banksheets-cli.py:59-70 | the loop queues exactly `AutoDeletes` |
| Cli.AutoDeletesArePrefixes | bin/banksheets-cli.py:62-68 | the queue is a prefix of each group, in group order, keeping 0 or 1 copies |
| Cli.FirstValid | bin/banksheets-cli.py:38-54 | the prompt loop stops at the first answer in `[0, entry_count]` |
| Cli.QueryUser | bin/banksheets-cli.py:33-56 | the loops queue exactly `QueryDeletes`, or raise `EOFError` when input runs out; the copy at src/banksheets/app/main.py:66-87 is the same code |
| Cli.QueryDeletesArePrefixes | bin/banksheets-cli.py:34-52 | each accepted answer `k` is a response in `[0, entry_count]`, and the queue is the first `entry_count - k` ids of each group, in group order; the copy at src/banksheets/app/main.py:82-85 is the same code |
| Cli.InvalidAnswerReasks | bin/banksheets-cli.py:44-54 | a bad answer changes nothing and the same group is asked again; the copy at src/banksheets/app/main.py:77-87 is the same code |
| Cli.PrefixesWithin | bin/banksheets-cli.py:49-51 | only ids of the groups are queued |
| Cli.PrefixesTakeAll | bin/banksheets-cli.py:65-68 | a group keeping no copy has every id queued |
| Cli.PrefixesKeepLast | bin/banksheets-cli.py:65-68 | with unique ids, a group keeping a copy keeps its last id |
| Cli.AutomaticKeepsOneCopy | bin/banksheets-cli.py:59-70 | over the view rows, all copies of a committed key are queued and the last copy of an uncommitted key never is |
| Cli.RemoveWithIds | bin/banksheets-cli.py:56 | `remove_potential` with int ids succeeds only for the empty list |
| Cli.AutomaticPolicyRaises | bin/banksheets-cli.py:59-70 | two new copies of an uncommitted key make the automatic policy raise `AttributeError` |
| Cli.InsertAsWritten | bin/banksheets-cli.py:107-120 | `insert` in its order; a non-empty queue raises `AttributeError` with the batch still staged; an empty one commits the batch and clears staging |
| Cli.Insert | bin/banksheets-cli.py:107-120 | with deletion by id, the committed rows gain exactly the staged batch minus the queued ids, and staging ends empty |
| Cli.UsesLikeAlways | bin/banksheets-cli.py:163 | the wildcard test is true for every description, "Grocery" included |
| Cli.PlainDescriptionExact | bin/banksheets-cli.py:163-169 | with the intended test a plain description is looked up exactly, giving at most one id |
| Cli.CollectIds | bin/banksheets-cli.py:162-169 | the collected ids are always the `LIKE` hits |
| Cli.Create | bin/banksheets-cli.py:160-172 | an alias is inserted exactly when at least one id was found |
| Cli.Replace | bin/banksheets-cli.py:192-204 | an alias is replaced exactly when at least one id was found |
| Cli.ReportLine | bin/banksheets-cli.py:243-244 | a report line ends with a newline |
| Cli.ReportLineFields | bin/banksheets-cli.py:243-244 | without commas in the fields, the line minus its newline splits back into the fields |
| AppMain.ConvertCsvDataToDataEntry | src/banksheets/app/main.py:40-48 | `None` raises `TypeError`; a list converts as in the helper module |
| AppMain.UnguardedConversion | src/banksheets/app/main.py:40-48 | agrees with the guarded conversion exactly on lists; on a list, one slot per row with `None` for `ValueError` rows |
| AppMain.QueryUser | src/banksheets/app/main.py:66-89 | raises `EOFError` when input runs out, else returns normally exactly when nothing was queued (int ids make `remove_potential` raise) |
| AppMain.KeepAllAnswersQueueNothing | src/banksheets/app/main.py:82-85 | answering every group with its full count queues nothing |
| AppMain.Run | src/banksheets/app/main.py:140-149 | `main` in its order: descriptions, staging, `query_user`, preserve, clear, with the outcome of each path |
| InstitutionParser.Decide | src/banksheets/institution_parser.py:7-14 | a chosen reader keeps the stripped first line |
| InstitutionParser.DecideCases | src/banksheets/institution_parser.py:7-14 | card header, summary line, then `input\Checking` with five fields, in that order; otherwise `None`; the copy at institution_parser.py:7-14 is the same code |
| InstitutionParser.DecideIgnoresSurroundingSpace | src/banksheets/institution_parser.py:8 | whitespace around the first line never changes the decision; the copy at institution_parser.py:8 is the same code |
| InstitutionParser.CardFirstLineFields | src/banksheets/institution_parser.py:9 | the card line is the mapper's card header joined by commas, five fields |
| InstitutionParser.SummaryFirstLineFields | src/banksheets/institution_parser.py:11-13 | the summary line has three fields |
| InstitutionParser.CardRuleBeforeWellsRule | src/banksheets/institution_parser.py:9-14 | a card file under `input\Checking` also has five fields, but the card rule wins; the copy at institution_parser.py:9-14 is the same code |
| InstitutionParser.PathOnlyForWells | src/banksheets/institution_parser.py:9-14 | the path matters only for the Wells Fargo rule |
| InstitutionParser.FiveFieldLineIsWells | src/banksheets/institution_parser.py:13-14 | five comma-free fields under `input\Checking` select Wells Fargo |
| Institution.CollectCharacterised | src/banksheets/institution.py:23-30 | a read succeeds exactly when no row raises anything but `ValueError`, and then holds every record built, in row order; otherwise it raises the first such exception |
| Institution.CollectErrStays | src/banksheets/institution.py:23-30 | after an uncaught exception later rows change nothing |
| Institution.FetchBofaCcData | src/banksheets/institution.py:20-30 | the loop gives exactly the collected card outcomes |
| Institution.FetchBofaCheckData | src/banksheets/institution.py:37-51 | the loop gives exactly the collected checking outcomes |
| Institution.FetchWellsFargoCheckData | src/banksheets/institution.py:58-73 | the first-line record, then the collected row outcomes; a first-line failure escapes |
| Institution.CardRowFields | src/banksheets/institution.py:24-27 | a card row gives its date, its fifth field sign-flipped, the payee and the reference number; a bad date skips it |
| Institution.CheckRowFields | src/banksheets/institution.py:42-46 | a checking row is reshaped to `[row[0], None, row[1], "", row[2]]`: amount from `row[2]`, description from `row[1]` |
| Institution.WellsRowFields | src/banksheets/institution.py:64-68 | a Wells Fargo row is reshaped to `[row[0], None, row[4], "", row[1]]` |
| Institution.WellsFirstLineFields | src/banksheets/institution.py:75-80 | the first line's fields 0, 4 and 1 lose their first and last characters |
| Institution.CheckShortRowRaises | src/banksheets/institution.py:42 | a checking row of one or two fields raises an uncaught `IndexError` |
| Institution.PositionalConstructorRaises | src/banksheets/institution.py:26 | with the four-field record class, no reader returns a record |
| LegacyEntry.Inverted | entry.py:12-16 | inversion changes the length by exactly one and always changes the text |
| LegacyEntry.InvertTwice | entry.py:12-16 | inverting twice restores any text not starting with "--" |
| LegacyEntry.InvertTwiceDoubleMinus | entry.py:12-16 | "--5" does not come back |
| LegacyEntry.Parse | entry.py:5-10 | date from `blob[0]`, amount from `blob[4]` inverted, description `blob[2]`, id `blob[1]`; an empty blob is `IndexError`, a missing `blob[0]` `TypeError`, an unparsable date `ValueError`, a blob shorter than five after a good date `IndexError`, a missing `blob[4]` `AttributeError` |
| LegacyEntry.LegacyDataEntry.constructor | entry.py:5-10 | the fields are those of `Parse` |
| LegacyEntry.LegacyDataEntry.InvertAmount | entry.py:12-16 | flips the amount's sign text and nothing else |
| LegacyEntry.ToStringFields | entry.py:18-19 | the string form splits into date, amount and description |
| LegacyEntry.ComparisonsByDate | entry.py:21-31 | the four comparisons look at the date only; two records of the same day are neither smaller nor larger |
| LegacyEntry.EqualsIgnoresDescription | entry.py:33-34 | records differing only in description compare equal |
| LegacyEntry.EqualsIntendedIsEquivalence | entry.py:33-34 | the intended equality is an equivalence that refines the written one by the description |

## Left out

- File and console I/O, folder scanning and path prompts are not modelled. This covers `read_file`, `get_data_from_folder`, `_ask_user_for_source`, `_ask_user_for_output`, `_check_source` and `convert_output`. The pipelines start from data already read.
- `csv.reader` and `csv.DictReader` tokenising is not modelled; rows come in already split.
- `dateutil.parser.parse` is the parameter `isDate`.
- `float()` and the printing of a float are the parameters `toFloat` and `showFloat`. Float arithmetic is not modelled.
- `Dates.ParseDate` accepts ASCII digits only. CPython's `strptime` also takes other Unicode digits.
- `Dates.ParseFormatRoundTrip` renders `%Y` as four digits. glibc does not pad years below 1000, so for those years the round trip is stated for the padded form only.
- The SQL engine and schema are not modelled:
  - The duplicate view's rows are an input, because `get_potential_duplicates` and the schema are not part of this model.
  - `INSERT OR IGNORE` on `potential_transaction` is a plain insert, because its uniqueness constraint lives in the schema.
  - Description names are unique, and row ids are handed out in increasing order.
  - Commits and transactions are not modelled.
- `SqlCommands.Store.ClearPotential`: `clear_potential` is not part of this model. It is modelled as emptying the staging table, as its name and its place after `preserve_potential` say.
- `SqlCommands.Store.constructor`: `create_sql_connection` runs a schema script that is not part of this model. The store starts empty.
- The alias commands' database reads are inputs: `get_description_id_by_name_like` gives a list of ids and `get_description_id_by_name` an optional id. `insert_alias` and `replace_alias` are the returned `AliasAction`.
- The report's `search` rows are inputs, assumed to hold strings. A non-string column would make `join` raise `TypeError`.
- `print` diagnostics, click decorators and `_query_list_of_missing_descriptions` are not modelled; they are console output only.
- `MissingHeadingMapping` is imported by the readers' callers but not defined in `transaction_reader.py`, so its `except` clause is not modelled.
- `TransactionReader.GetHeaderLineIndex` takes the lines `readline` returns, each non-empty. An empty string is the end of the file.
- The `counter` variables of the per-bank readers are never read, so they are not modelled.
- The per-bank readers take their record constructor as the parameter `build`, which succeeds or raises an exception.
- `LegacyEntry.LegacyDataEntry.constructor` requires a blob that `Parse` accepts. The exceptions `__init__` raises on the other blobs are stated by `LegacyEntry.Parse`.
- `Entry.Create`: `toFloat` yields finite values only; NaN and infinite amounts are not modelled, so the order and equality lemmas about records hold for finite amounts.
- `LegacyEntry.InvertTwice` is weaker than "inverting twice restores the amount". That claim fails for text starting with "--", as `LegacyEntry.InvertTwiceDoubleMinus` shows.
- `DataEntry` immutability (`frozen=True`) holds by construction, because a datatype value cannot be changed.

## Findings

| source | as written | input that shows it | evidently intended | confidence | as-written member | corrected member |
|---|---|---|---|---|---|---|
| bin/banksheets-cli.py:56 | both policies pass the queued staged ids (ints) to `remove_potential`, whose `to_tuple` reads `entry.date` and raises `AttributeError`; `src/banksheets/app/main.py:89` does the same | `insert --skip-duplicates` with one key staged twice and not yet committed: one id is queued | delete the queued staged rows by id, then preserve the rest | high; not executed | Cli.InsertAsWritten, Cli.AutomaticPolicyRaises | Cli.Insert, SqlCommands.Store.RemovePotentialIds, SqlCommands.DeleteIdsExactly |
| entry.py:34 | `__eq__` compares `self.description` with itself | two records of the same date and amount with descriptions "A" and "B" compare equal | compare `other.description` | high; not executed | LegacyEntry.LegacyDataEntry.Equals, LegacyEntry.EqualsIgnoresDescription | LegacyEntry.LegacyDataEntry.EqualsIntended, LegacyEntry.EqualsIntendedIsEquivalence |
| bin/banksheets-cli.py:163 | `"%" or "_" in description` is always true, so every description goes through `LIKE` | "Grocery" takes the `LIKE` branch | use `LIKE` only when the description holds `%` or `_` | high; not executed | Cli.UsesLike, Cli.UsesLikeAlways | Cli.UsesLikeIntended, Cli.PlainDescriptionExact |
| src/banksheets/institution.py:26 | the readers call the four-field record class with one positional list, which raises `TypeError` (not caught) | a card export with one non-empty row | build the record from the blob, as the blob-built record class does | high; not executed | Institution.PositionalDataEntry, Institution.PositionalConstructorRaises | LegacyEntry.Parse, Institution.CardRowFields |
