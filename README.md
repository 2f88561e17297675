# Bank statement to QuickBooks converter, verified model

`converter.py` reads a bank-statement CSV export and writes a cleaned file that QuickBooks Online can import. Its steps are:

1. Find the header line among preamble lines.
2. Work out which bank layout the columns follow.
3. Keep the date, description and amount columns.
4. Strip descriptions and parse amounts, dropping `1,234.56`-style separators and quotes.
5. Drop rows without an amount or a date.
6. Parse dates and sort by date.
7. Render dates as `MM/DD/YYYY`.
8. Report credits, debits and net.

This project models those steps in Dafny and proves what each step promises.

Modules, one per file:

- `Wrappers` (wrappers.dfy): `Option` and `Result`.
- `Text` (text.dfy): Python's `str.strip()` with Python's whitespace set, the `in` substring test, and removal of `,` and `"`.
- `Digits` (digits.dfy): digit strings, their values, and zero-padded rendering of naturals.
- `HeaderLocator` (header.dfy): the header scan loop, as a method proved against the first-match function `FirstHeaderIndex`.
- `BankFormats` (formats.dfy): the ordered `BANK_FORMATS` table and `detect_bank_format` as a first-match function.
- `AmountCleaner` (amount.dfy): `clean_amount`, with exact decimal parsing into `real`.
- `Dates` (dates.dfy): calendar dates, their order and `strftime('%m/%d/%Y')`.
- `Transactions` (transactions.dfy): the sort by date and the credit, debit and net sums.
- `Pipeline` (pipeline.dfy): projection, filtering, date parsing and the two driver methods `ConvertTable` and `Convert`.

Three pieces of I/O become parameters of `Pipeline.Convert`:

- Reading the file: the input is its lines.
- `pd.read_csv`: a function from the lines after the skipped ones to a `Table`. A `Table` is the column names as written plus rows of cells; a cell that is `None` stands for NaN.
- `pd.to_datetime`: a function from a cell's text to an optional calendar date.

Three facts about converter.py and pandas shape the model:

- **Column names.** `detect_bank_format` strips the column names before matching them (`converter.py:32`). The three-column frame is then built from `df` by the names as `read_csv` produced them (`converter.py:106-110`). `read_csv` leaves a blank after a comma in place, because `skipinitialspace` is off by default. The drivers take a `Lookup` argument: `RawNames` is this behaviour, and `convert_bank_to_qbo` is `Convert(lines, readCsv, parseDate, RawNames)`. `StrippedNames` is the corrected lookup from Findings.
- **Sort stability.** `sort_values('Date')` uses pandas' default sort kind, which is not stable. The model promises only a date-sorted rearrangement.
- **The generic fallback.** The `generic` entry has the same three names as `bofa_detailed`, which comes first. So generic is chosen only when those names are absent after stripping, and the run then always ends in a missing column, with either lookup (`Pipeline.GenericFailsAsWritten`, `Pipeline.GenericRunFails`).

## Model

| member | source | states |
|---|---|---|
| Text.Strip | converter.py:51 | the result is a window of the input that starts at the leading-whitespace count; everything outside the window is whitespace; the result neither starts nor ends with whitespace |
| Text.StripIdempotent | converter.py:113 | stripping twice is stripping once |
| Text.ContainsIff | converter.py:88 | the `in` test holds exactly when the substring occurs at some position |
| Text.Contains | converter.py:88 | Python's `sub in s`; it has no contract of its own, and `ContainsIff` characterises it |
| Text.UnquoteConcat | converter.py:51 | removing commas and quotes works piece by piece over concatenation |
| Text.Unquote | converter.py:51 | the two `replace` calls: the result is no longer than the input and holds no comma or double quote |
| Text.UnquoteNoSeparators | converter.py:51 | text without commas or quotes is left unchanged |
| Digits.PadLeft | converter.py:124 | the padded rendering is all digits, reads back as the number, and has at least the requested width |
| Digits.DigitsValueConcat | converter.py:54 | appending digits shifts the earlier digits' value left by their count |
| HeaderLocator.FirstHeaderIndex | converter.py:87-91 | the result, when present, is a line containing "Date", "Description" and "Amount", with no earlier such line; when absent, no line is a header |
| HeaderLocator.IsHeaderLine | converter.py:88 | the test on one line: all three names occur as literal substrings; it has no contract of its own, and `NamesMakeHeader` and `FirstHeaderIndex` use it |
| HeaderLocator.LocateHeader | converter.py:83-95 | the loop stops at the first header line; `found_header` holds exactly when some line is a header; without one, `skip_rows` falls back to 0; the result equals `SkipRows` and `FirstHeaderIndex` |
| HeaderLocator.SkipRows | converter.py:83-95 | the number of skipped lines is 0 or a valid line index |
| HeaderLocator.NamesMakeHeader | converter.py:88 | any line with the three names in that order is a header, whatever comes before, between and after them |
| HeaderLocator.PreambleThenHeader | converter.py:86-91 | after a "Statement Summary" preamble line, a header starting `Date,Description,Amount` is found at index 1 |
| BankFormats.Trimmed | converter.py:32 | each detection name is the stripped raw name at the same position |
| BankFormats.FirstMatch | converter.py:34-38 | the index of the first entry whose three names are all present, or the table length when none match |
| BankFormats.Detect | converter.py:28-41 | the result is a table entry, and it matches the stripped names or is the generic fallback |
| BankFormats.DetectIsFirstMatch | converter.py:34-41 | the result is the first matching entry in declaration order, or generic when no entry matches |
| BankFormats.DetectBofa | converter.py:5-10 | Date, Description and Amount present always give bofa_detailed, even when Posting Date is also present |
| BankFormats.DetectChase | converter.py:11-15 | chase is detected exactly when Posting Date, Description and Amount are present and Date is absent |
| BankFormats.NeverWells | converter.py:16-20 | wells is never detected, since bofa_detailed has the same names and comes first |
| BankFormats.DetectGeneric | converter.py:40-41 | generic is returned exactly when no entry matches |
| BankFormats.DetectIgnoresPadding | converter.py:32 | stripping the column names beforehand changes nothing |
| BankFormats.FormatTable | converter.py:5-26 | the table holds bofa_detailed, chase, wells and generic in that order; all name Description and Amount, and all but chase, which names Posting Date, name Date |
| BankFormats.Matches | converter.py:35-36 | all three of an entry's names occur among the columns; it has no contract of its own, and `FirstMatch` and `DetectIsFirstMatch` use it |
| AmountCleaner.ParseUnsigned | converter.py:54 | an accepted unsigned number is non-empty and non-negative; which strings are accepted, and their values, are stated by `UnsignedAccepts`, `WholeValue` and `PointedValue` |
| AmountCleaner.UnsignedAlphabet | converter.py:54 | an accepted unsigned number contains only digits and points |
| AmountCleaner.ParseDecimal | converter.py:54 | accepted text is non-empty, and a negative value comes only from a leading minus; which strings are accepted, and their values, are stated by `DecimalAccepts`, `SignedValue` and `UnsignedValue` |
| AmountCleaner.DecimalAlphabet | converter.py:54 | an accepted number contains only digits, points and signs |
| AmountCleaner.UnsignedAccepts | converter.py:54 | the unsigned parser accepts exactly the strings made of digits and points, with at most one point and at least one digit |
| AmountCleaner.DecimalAccepts | converter.py:54 | the decimal parser accepts exactly those strings, optionally preceded by one `+` or `-` |
| AmountCleaner.WholeValue | converter.py:54 | digits without a point are worth their decimal value |
| AmountCleaner.PointedValue | converter.py:54 | digits, a point and digits, with a digit on at least one side (`5.`, `.5` included), are worth the integer part plus the fraction digits over 10 to the power of their count |
| AmountCleaner.SignedValue | converter.py:54 | a leading `-` negates the unsigned value and a leading `+` keeps it; a sign with an unacceptable body is rejected |
| AmountCleaner.UnsignedValue | converter.py:54 | text that does not start with a sign is parsed as an unsigned number |
| AmountCleaner.ExampleLooseForms | converter.py:54 | `.5`, `5.` and `+3` parse to 0.5, 5 and 3 |
| AmountCleaner.ExampleRejected | converter.py:53-56 | `1.2.3`, `.` and `--5` are rejected |
| AmountCleaner.CleanAmount | converter.py:47-48 | a missing cell or the empty string is absent |
| AmountCleaner.Cleaned | converter.py:51 | the text handed to `float`: separators removed, then whitespace stripped; it has no contract of its own, and `CleanedIsFixed` characterises it |
| AmountCleaner.IgnoresSeparator | converter.py:51 | a comma or quote inserted anywhere leaves the cleaned amount unchanged |
| AmountCleaner.CleanIdempotent | converter.py:51-54 | cleaning the cleaned text gives the same amount |
| AmountCleaner.CleanedIsFixed | converter.py:51 | the cleaned text is its own cleaned text |
| AmountCleaner.ScaledIsQuotient | converter.py:54 | k divisions by ten give v / 10^k |
| AmountCleaner.PointAtParses | converter.py:54 | digits with a point before the last k of them parse to their value / 10^k |
| AmountCleaner.DecimalValue | converter.py:54 | equals m / 10^k exactly |
| AmountCleaner.RenderRoundTrip | converter.py:54 | the plain rendering of m / 10^k parses back to exactly m / 10^k, for every sign and scale |
| AmountCleaner.CleanRendered | converter.py:43-56 | any plainly rendered amount cleans to its exact value |
| AmountCleaner.CleanThousands | converter.py:51-54 | "1,234.56" cleans to 1234.56 |
| AmountCleaner.CleanRenderedWithComma | converter.py:51-54 | a plainly rendered amount with a comma inserted anywhere still cleans to its exact value |
| Dates.FormatDate | converter.py:124 | ten characters with `/` at positions 2 and 5; the three digit groups read back as month, day and year |
| Dates.FormatDateInjective | converter.py:124 | different dates never render the same |
| Dates.DateLeTotalOrder | converter.py:123 | the date order is reflexive, total, antisymmetric and transitive |
| Transactions.InsertByDate | converter.py:123 | inserting into a date-sorted sequence keeps it sorted and adds exactly the one row |
| Transactions.SortByDate | converter.py:123 | the result is non-decreasing by date and a permutation of the input |
| Transactions.SortThree | converter.py:123 | any arrangement of three rows with distinct dates comes out in date order |
| Transactions.SortedThree | converter.py:123 | the only date-sorted arrangement of three rows with distinct dates is the one in date order |
| Transactions.SortExample | converter.py:123 | rows dated 2024-03-01, 2024-01-15 and 2024-02-10 come out January, February, March |
| Transactions.SumOf | converter.py:133-134 | the sum of positive amounts is never negative; the sum of negative amounts is never positive |
| Transactions.SumOfConcat | converter.py:133-134 | each sum splits over concatenation |
| Transactions.SumOfPermutation | converter.py:133-134 | each sum depends only on which rows there are, not their order |
| Transactions.CreditsPlusDebits | converter.py:133-139 | credits plus debits equal the sum of all amounts |
| Transactions.Summarize | converter.py:133-139 | count is the number of rows; credits ≥ 0 ≥ debits; net = credits + debits = the sum of all amounts; all zero for no rows |
| Transactions.SummaryIgnoresOrder | converter.py:123-134 | summarising the sorted rows gives the same summary as the unsorted ones |
| Transactions.SummaryExample | converter.py:133-139 | amounts 1200.00 and -4.50, in either order, give credits 1200, debits -4.5 and net 1195.5 |
| Pipeline.IndexOf | converter.py:107-109 | the first position holding the name; absent exactly when the name is missing |
| Pipeline.FirstMissing | converter.py:106-110 | the name the KeyError reports: absent exactly when all three names are present; otherwise a missing name, the first one missing in date, description, amount order |
| Pipeline.StripCell | converter.py:113 | NaN stays NaN; text is stripped |
| Pipeline.ProjectBy | converter.py:106-116 | succeeds exactly when all three names are present; otherwise fails with the first missing name in date, description, amount order; on success, one row per input row with the raw date, stripped description and cleaned amount taken from each name's first column |
| Pipeline.Retain | converter.py:119 | only rows with an amount and a date remain |
| Pipeline.Keep | converter.py:119 | `dropna(subset=['Amount', 'Date'])`'s test on one row: both the amount and the date are present; it has no contract of its own |
| Pipeline.RetainCounts | converter.py:119 | every kept row survives with its full multiplicity, and every other row vanishes |
| Pipeline.RetainConcat | converter.py:119 | filtering decides row by row and keeps the order |
| Pipeline.RetainAllKept | converter.py:119 | rows that all have an amount and a date are left unchanged |
| Pipeline.ParseDates | converter.py:122 | succeeds exactly when every retained date parses, giving one transaction per row with that row's description and amount; otherwise fails with the first unparseable date |
| Pipeline.Prepare | converter.py:103-122 | projection, filtering and date parsing composed, with the chosen lookup; a failure is a missing column exactly when the projection failed, and otherwise an unparseable date; a success has no more transactions than the table has rows |
| Pipeline.Render | converter.py:124 | one output row per transaction, with the formatted date and the unchanged description and amount |
| Pipeline.ConvertTable | converter.py:103-139 | under the chosen lookup (`RawNames` for converter.py): fails exactly when projection or date parsing fails, with that error; on success, the detected format, a date-sorted permutation of the parsed rows, their rendering, and the summary of the parsed rows |
| Pipeline.Convert | converter.py:83-98 | skips exactly `SkipRows(lines)` lines before reading the table and reports whether a header was found; then, like `ConvertTable`, fails exactly when the prepared run does, and otherwise returns the format detected on the read table, a date-sorted permutation of the parsed rows, their rendering and their summary |
| Pipeline.ProjectSucceedsIffMatched | converter.py:40-41 | with the stripped lookup, projection succeeds exactly when a format other than the generic fallback was detected |
| Pipeline.AgreeOnUnpaddedHeader | converter.py:106-110 | on a header without padding, the raw-name and stripped-name lookups agree |
| Pipeline.CorrectedAcceptsMore | converter.py:106-110 | the stripped lookup accepts every table the raw-name lookup accepts |
| Pipeline.ProjectAsWritten | converter.py:106-110 | the lookup as written: succeeds exactly when the format's three names occur among the column names as read, unstripped, and otherwise fails on the first missing one |
| Pipeline.Project | converter.py:106-110 | the corrected lookup: succeeds exactly when the format's three names occur among the stripped column names, the ones detection matched, and otherwise fails on the first missing one |
| Pipeline.PaddedHeaderMissesDescription | converter.py:106-110 | on `Date, Description, Amount`, the raw-name lookup fails on Description |
| Pipeline.PaddedHeaderDetected | converter.py:32-38 | `Date, Description, Amount` detects as bofa_detailed, and the stripped lookup succeeds |
| Pipeline.PaddedHeaderRejected | converter.py:32-38 | both halves together: detected as bofa_detailed, rejected by the raw-name lookup, accepted by the stripped lookup |
| Pipeline.PaddedHeaderRun | converter.py:103-119 | an empty statement under `Date, Description, Amount` fails on Description with the raw-name lookup and gives no transactions with the stripped one |
| Pipeline.RunsAgreeOnUnpaddedHeader | converter.py:106-110 | on a header without padding, runs under the two lookups are identical |
| Pipeline.GenericFailsAsWritten | converter.py:40-41 | when detection falls back to generic, the raw-name lookup fails |
| Pipeline.GenericRunFails | converter.py:40-41 | when detection falls back to generic, the run fails with a missing column under either lookup |

## Left out

- File I/O: `open`, `pd.read_csv` and `to_csv` (converter.py:86, 98, 129). The file's lines are the input. Tokenising them into a table is a function parameter, so CSV quoting, multi-line fields and `EmptyDataError` are not modelled.
- pandas' renaming of duplicate column names (`Amount.1`) is left out. A name's first column is used.
- `pd.to_datetime` is a function parameter. Its format inference across a column is not modelled. Dates are limited to years 1677 to 2262, the years a pandas Timestamp can hold; the exact bounds inside the first and last year are not modelled.
- AmountCleaner.ParseDecimal: accepts only an optional sign, digits and an optional fraction (the grammar `AmountCleaner.DecimalAccepts` states). Python's `float` also accepts exponents, `inf`, `nan`, underscores between digits, non-ASCII digits and surrounding whitespace; all of these give absent here. Surrounding whitespace is already stripped by the cleaner.
- IEEE rounding in `float` and in pandas `.sum()` is not modelled. Amounts and sums are exact rationals.
- pandas dtype inference: when `read_csv` reads a column as numbers, `clean_amount` sees `str()` of a float, and `.str.strip()` fails on a non-text description column. Cells are modelled as the raw text.
- Transactions.SortByDate: promises a date-sorted permutation and nothing about the order of rows with equal dates. pandas' default sort kind is not stable.
- All `print` output, including the `$...:,.2f` summary formatting (converter.py:37, 40, 79, 94, 100, 126, 130, 135-140). The summary values themselves are modelled.
- The `__main__` demo block (converter.py:144-150).

## Findings

| source | as written | input that shows it | evidently intended | confidence | as-written member | corrected member |
|---|---|---|---|---|---|---|
| converter.py:32, 106-110 | detection strips the column names, but the new frame looks the names up in `df` unstripped | a header line `Date, Description, Amount` (a blank after each comma): detected as bofa_detailed, then `df['Description']` raises KeyError | look the format's names up among the stripped column names, the ones detection matched | not executed | Pipeline.PaddedHeaderRejected and Pipeline.PaddedHeaderRun (with Pipeline.ProjectAsWritten) | Pipeline.Project, with Pipeline.CorrectedAcceptsMore and Pipeline.ProjectSucceedsIffMatched |

`Pipeline.ConvertTable` and `Pipeline.Convert` run either lookup. With `RawNames` they follow converter.py. With `StrippedNames` they use the corrected lookup.
