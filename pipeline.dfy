/** The body of `convert_bank_to_qbo` (converter.py): locate the header,
    project the detected format's three columns, clean descriptions and
    amounts, drop rows without an amount or a date, parse dates, sort by date,
    render dates as MM/DD/YYYY and summarise. */
module Pipeline {
  import opened Wrappers
  import opened Text
  import opened AmountCleaner
  import opened HeaderLocator
  import opened BankFormats
  import opened Dates
  import opened Transactions

  /** A parsed CSV field; None is pandas' NaN (an empty field or one missing
      from a short row). */
  type Cell = Option<string>

  /** What `read_csv` yields: the header's column names, as written, and the
      data rows. */
  datatype Table = Table(columns: seq<string>, rows: seq<seq<Cell>>)

  /** The field in column `i`; a row shorter than the header is padded with NaN. */
  function CellAt(row: seq<Cell>, i: nat): Cell {
    if i < |row| then row[i] else None
  }

  /** The two ways the pipeline fails: a column the format names is missing
      (pandas' KeyError), or a retained date cell does not parse. */
  datatype Error = MissingColumn(name: string) | UnparseableDate(text: string)

  /** A projected row before filtering: raw date cell, stripped description,
      cleaned amount. */
  datatype Candidate = Candidate(date: Cell, description: Cell, amount: Option<real>)

  /** The position of the first column called `name`. */
  function IndexOf(names: seq<string>, name: string): (r: Option<nat>)
    ensures r.None? <==> name !in names
    ensures r.Some? ==> r.value < |names| && names[r.value] == name
    ensures r.Some? ==> forall j :: 0 <= j < r.value ==> names[j] != name
  {
    if names == [] then None
    else if names[0] == name then Some(0)
    else
      match IndexOf(names[1..], name)
      case None => None
      case Some(k) => Some(k + 1)
  }

  /** `.str.strip()` on one cell: NaN stays NaN. */
  function StripCell(c: Cell): (r: Cell)
    ensures r.None? <==> c.None?
    ensures r.Some? ==> r.value == Strip(c.value)
  {
    match c
    case None => None
    case Some(s) => Some(Strip(s))
  }

  /** The first of the format's date, description and amount names that is
      not among `names`, in the order the new frame's columns are looked up. */
  function FirstMissing(names: seq<string>, f: BankFormat): (r: Option<string>)
    ensures r.None? <==> Matches(f, names)
    ensures r.Some? ==> r.value !in names
    ensures r.Some? ==> r.value == f.date
                        || (f.date in names && r.value == f.description)
                        || (f.date in names && f.description in names && r.value == f.amount)
  {
    if f.date !in names then Some(f.date)
    else if f.description !in names then Some(f.description)
    else if f.amount !in names then Some(f.amount)
    else None
  }

  /** Building the three-column frame by looking the format's names up in
      `names`, then stripping descriptions and cleaning amounts. A missing
      name fails with the first missing one. */
  function ProjectBy(names: seq<string>, rows: seq<seq<Cell>>, f: BankFormat): (r: Result<seq<Candidate>, Error>)
    ensures r.Success? <==> Matches(f, names)
    ensures r.Failure? ==> FirstMissing(names, f).Some? && r.error == MissingColumn(FirstMissing(names, f).value)
    ensures r.Success? ==> |r.value| == |rows|
    ensures r.Success? ==> forall i :: 0 <= i < |rows| ==>
      var d, s, a := IndexOf(names, f.date).value, IndexOf(names, f.description).value, IndexOf(names, f.amount).value;
      r.value[i] == Candidate(CellAt(rows[i], d), StripCell(CellAt(rows[i], s)), CleanAmount(CellAt(rows[i], a)))
  {
    match FirstMissing(names, f)
    case Some(name) => Failure(MissingColumn(name))
    case None =>
      var d, s, a := IndexOf(names, f.date).value, IndexOf(names, f.description).value, IndexOf(names, f.amount).value;
      Success(seq(|rows|, i requires 0 <= i < |rows| =>
        Candidate(CellAt(rows[i], d), StripCell(CellAt(rows[i], s)), CleanAmount(CellAt(rows[i], a)))))
  }

  /** The lookup as converter.py writes it: by the column names exactly as
      read, although detection matched them after stripping. */
  function ProjectAsWritten(table: Table, f: BankFormat): (r: Result<seq<Candidate>, Error>)
    ensures r.Success? <==> Matches(f, table.columns)
    ensures r.Failure? ==> r.error == MissingColumn(FirstMissing(table.columns, f).value)
  {
    ProjectBy(table.columns, table.rows, f)
  }

  /** The lookup by stripped column names, the ones detection matched. */
  function Project(table: Table, f: BankFormat): (r: Result<seq<Candidate>, Error>)
    ensures r.Success? <==> Matches(f, Trimmed(table.columns))
    ensures r.Failure? ==> r.error == MissingColumn(FirstMissing(Trimmed(table.columns), f).value)
  {
    ProjectBy(Trimmed(table.columns), table.rows, f)
  }

  /** `dropna(subset=['Amount', 'Date'])` keeps a row when both are present. */
  predicate Keep(c: Candidate) {
    c.amount.Some? && c.date.Some?
  }

  /** The text of a kept row's date cell. */
  function DateText(c: Candidate): string
    requires Keep(c)
  {
    c.date.value
  }

  /** The retained rows, in their original order. */
  function Retain(cs: seq<Candidate>): (r: seq<Candidate>)
    ensures |r| <= |cs|
    ensures forall k :: 0 <= k < |r| ==> Keep(r[k])
  {
    if cs == [] then []
    else (if Keep(cs[0]) then [cs[0]] else []) + Retain(cs[1..])
  }

  /** Every kept row survives as often as it occurs, every other row vanishes,
      and nothing else changes. */
  lemma {:induction false} RetainCounts(cs: seq<Candidate>, c: Candidate)
    ensures multiset(Retain(cs))[c] == if Keep(c) then multiset(cs)[c] else 0
  {
    if cs != [] {
      RetainCounts(cs[1..], c);
      assert cs == [cs[0]] + cs[1..];
    }
  }

  /** Filtering splits over concatenation, so it is a row-by-row decision. */
  lemma {:induction false} RetainConcat(a: seq<Candidate>, b: seq<Candidate>)
    ensures Retain(a + b) == Retain(a) + Retain(b)
  {
    if a == [] {
      assert a + b == b;
    } else {
      assert (a + b)[1..] == a[1..] + b;
      RetainConcat(a[1..], b);
    }
  }

  /** Rows that all have an amount and a date are left alone. */
  lemma {:induction false} RetainAllKept(cs: seq<Candidate>)
    requires forall k :: 0 <= k < |cs| ==> Keep(cs[k])
    ensures Retain(cs) == cs
  {
    if cs != [] {
      RetainAllKept(cs[1..]);
    }
  }

  /** `pd.to_datetime` over the retained date column: every date must parse,
      and the first that does not fails the whole run. */
  function ParseDates(cs: seq<Candidate>, parseDate: string -> Option<CalendarDate>): (r: Result<seq<Transaction>, Error>)
    requires forall k :: 0 <= k < |cs| ==> Keep(cs[k])
    ensures r.Success? <==> forall k :: 0 <= k < |cs| ==> parseDate(DateText(cs[k])).Some?
    ensures r.Success? ==> |r.value| == |cs| && forall k :: 0 <= k < |cs| ==>
      r.value[k] == Transaction(parseDate(DateText(cs[k])).value, cs[k].description, cs[k].amount.value)
    ensures r.Failure? ==> exists k :: 0 <= k < |cs| && parseDate(DateText(cs[k])).None?
                              && (forall j :: 0 <= j < k ==> parseDate(DateText(cs[j])).Some?)
                              && r.error == UnparseableDate(DateText(cs[k]))
  {
    if cs == [] then Success([])
    else
      var c := cs[0];
      assert Keep(c);
      match parseDate(DateText(c))
      case None => Failure(UnparseableDate(DateText(c)))
      case Some(d) =>
        match ParseDates(cs[1..], parseDate)
        case Failure(e) =>
          var k :| 0 <= k < |cs[1..]| && parseDate(DateText(cs[1..][k])).None?
            && (forall j :: 0 <= j < k ==> parseDate(DateText(cs[1..][j])).Some?)
            && e == UnparseableDate(DateText(cs[1..][k]));
          assert parseDate(DateText(cs[k + 1])).None?;
          Failure(e)
        case Success(ts) =>
          var r := [Transaction(d, c.description, c.amount.value)] + ts;
          assert forall k :: 1 <= k < |cs| ==> r[k] == ts[k - 1];
          Success(r)
  }

  /** Which column names the three-column frame is built from: the names as
      read, as converter.py does, or the stripped names detection matched,
      the corrected lookup. */
  datatype Lookup = RawNames | StrippedNames

  function ProjectUsing(table: Table, f: BankFormat, lookup: Lookup): Result<seq<Candidate>, Error> {
    if lookup == RawNames then ProjectAsWritten(table, f) else Project(table, f)
  }

  /** Projection with the detected format, filtering and date parsing: the
      transactions before sorting. */
  function Prepare(table: Table, parseDate: string -> Option<CalendarDate>, lookup: Lookup): (r: Result<seq<Transaction>, Error>)
    ensures r.Failure? ==> (r.error.MissingColumn? <==> ProjectUsing(table, Detect(table.columns), lookup).Failure?)
    ensures r.Success? ==> |r.value| <= |table.rows|
  {
    match ProjectUsing(table, Detect(table.columns), lookup)
    case Failure(e) => Failure(e)
    case Success(cs) => ParseDates(Retain(cs), parseDate)
  }

  /** One line of the output file: rendered date, description, amount. */
  datatype OutputRow = OutputRow(date: string, description: Option<string>, amount: real)

  /** `dt.strftime('%m/%d/%Y')` on the date column. */
  function Render(ts: seq<Transaction>): (r: seq<OutputRow>)
    ensures |r| == |ts|
    ensures forall k :: 0 <= k < |ts| ==>
      r[k].date == FormatDate(ts[k].date) && r[k].description == ts[k].description && r[k].amount == ts[k].amount
  {
    seq(|ts|, k requires 0 <= k < |ts| => OutputRow(FormatDate(ts[k].date), ts[k].description, ts[k].amount))
  }

  /** What a successful run produces: the detected format, the sorted
      transactions, the rows written out and the summary. */
  datatype Conversion = Conversion(format: BankFormat, transactions: seq<Transaction>, output: seq<OutputRow>, summary: Summary)

  /** The pipeline from the parsed table on; converter.py runs it with
      `RawNames`. */
  method ConvertTable(table: Table, parseDate: string -> Option<CalendarDate>, lookup: Lookup) returns (r: Result<Conversion, Error>)
    ensures r.Success? <==> Prepare(table, parseDate, lookup).Success?
    ensures r.Failure? ==> r.error == Prepare(table, parseDate, lookup).error
    ensures r.Success? ==> r.value.format == Detect(table.columns)
    ensures r.Success? ==> SortedByDate(r.value.transactions)
    ensures r.Success? ==> multiset(r.value.transactions) == multiset(Prepare(table, parseDate, lookup).value)
    ensures r.Success? ==> r.value.output == Render(r.value.transactions)
    ensures r.Success? ==> r.value.summary == Summarize(Prepare(table, parseDate, lookup).value)
  {
    var format := Detect(table.columns);
    var projected := ProjectUsing(table, format, lookup);
    if projected.Failure? {
      return Failure(projected.error);
    }
    var rows := Retain(projected.value);
    var parsed := ParseDates(rows, parseDate);
    if parsed.Failure? {
      return Failure(parsed.error);
    }
    var transactions := SortByDate(parsed.value);
    SummaryIgnoresOrder(parsed.value);
    var summary := Summarize(transactions);
    r := Success(Conversion(format, transactions, Render(transactions), summary));
  }

  /** The whole conversion over the file's lines: scan for the header, hand
      the lines from the header on to `readCsv`, convert the table.
      `convert_bank_to_qbo` is `Convert(lines, readCsv, parseDate, RawNames)`. */
  method Convert(lines: seq<string>, readCsv: seq<string> -> Table, parseDate: string -> Option<CalendarDate>, lookup: Lookup)
    returns (skipRows: nat, foundHeader: bool, r: Result<Conversion, Error>)
    ensures skipRows == SkipRows(lines) && foundHeader == FirstHeaderIndex(lines).Some?
    ensures r.Success? <==> Prepare(readCsv(lines[skipRows..]), parseDate, lookup).Success?
    ensures r.Failure? ==> r.error == Prepare(readCsv(lines[skipRows..]), parseDate, lookup).error
    ensures r.Success? ==> r.value.format == Detect(readCsv(lines[skipRows..]).columns)
    ensures r.Success? ==> SortedByDate(r.value.transactions)
    ensures r.Success? ==> multiset(r.value.transactions) == multiset(Prepare(readCsv(lines[skipRows..]), parseDate, lookup).value)
    ensures r.Success? ==> r.value.output == Render(r.value.transactions)
    ensures r.Success? ==> r.value.summary == Summarize(Prepare(readCsv(lines[skipRows..]), parseDate, lookup).value)
  {
    skipRows, foundHeader := LocateHeader(lines);
    var table := readCsv(lines[skipRows..]);
    r := ConvertTable(table, parseDate, lookup);
  }

  /** With the stripped lookup a run gets past projection exactly when a
      known format was detected. The generic fallback is only taken when no
      format matches, and generic's names equal bofa_detailed's, so choosing
      it always ends in a missing column. */
  lemma ProjectSucceedsIffMatched(table: Table)
    ensures Project(table, Detect(table.columns)).Success? <==> Detect(table.columns) != Generic
  {
    DetectGeneric(table.columns);
    assert Formats[3] == Generic;
  }

  /** The table's column names never start or end with whitespace. */
  predicate Unpadded(names: seq<string>) {
    forall i :: 0 <= i < |names| ==> Strip(names[i]) == names[i]
  }

  /** On a header without padding the two lookups coincide. */
  lemma AgreeOnUnpaddedHeader(table: Table, f: BankFormat)
    requires Unpadded(table.columns)
    ensures ProjectAsWritten(table, f) == Project(table, f)
  {
    assert Trimmed(table.columns) == table.columns;
  }

  /** A name that neither starts nor ends with whitespace. */
  predicate HasNoPadding(name: string) {
    name != [] && !IsSpace(name[0]) && !IsSpace(name[|name| - 1])
  }

  lemma EntryNamesUnpadded(f: BankFormat)
    requires f in Formats
    ensures HasNoPadding(f.date) && HasNoPadding(f.description) && HasNoPadding(f.amount)
  {
  }

  /** A name without padding that is among the raw names is among the
      stripped ones. */
  lemma StillPresent(names: seq<string>, name: string)
    requires name in names && HasNoPadding(name)
    ensures name in Trimmed(names)
  {
    var i :| 0 <= i < |names| && names[i] == name;
    var t := Trimmed(names);
    StripUnpadded(name);
    assert t[i] == Strip(names[i]);
  }

  /** Every table the as-written lookup accepts, the stripped lookup accepts
      too. */
  lemma CorrectedAcceptsMore(table: Table, f: BankFormat)
    requires f in Formats
    requires ProjectAsWritten(table, f).Success?
    ensures Project(table, f).Success?
  {
    EntryNamesUnpadded(f);
    StillPresent(table.columns, f.date);
    StillPresent(table.columns, f.description);
    StillPresent(table.columns, f.amount);
  }

  /** A header written with a blank after each comma:
      `Date, Description, Amount`. */
  predicate IsPaddedHeader(header: seq<string>) {
    header == ["Date", [' '] + "Description", [' '] + "Amount"]
  }

  /** Stripping a header whose second and third names carry one leading blank. */
  lemma TrimsBlanks(header: seq<string>, date: string, description: string, amount: string)
    requires header == [date, [' '] + description, [' '] + amount]
    requires HasNoPadding(date) && HasNoPadding(description) && HasNoPadding(amount)
    ensures Trimmed(header) == [date, description, amount]
  {
    var t := Trimmed(header);
    assert t[0] == date by {
      StripUnpadded(date);
    }
    assert t[1] == description by {
      StripLeadingBlank(description);
    }
    assert t[2] == amount by {
      StripLeadingBlank(amount);
    }
    assert |t| == 3;
    assert t == [t[0], t[1], t[2]];
  }

  /** The raw lookup stops at the first raw name that is not present. */
  lemma MissesDescription(header: seq<string>, rows: seq<seq<Cell>>, f: BankFormat)
    requires f.date in header && f.description !in header
    ensures ProjectAsWritten(Table(header, rows), f) == Failure(MissingColumn(f.description))
  {
  }

  /** Detection strips the padding and so recognises bofa_detailed, whose
      names the stripped lookup then finds. */
  lemma PaddedHeaderDetected(header: seq<string>, rows: seq<seq<Cell>>)
    requires IsPaddedHeader(header)
    ensures Detect(header) == BofaDetailed
    ensures Project(Table(header, rows), BofaDetailed).Success?
  {
    EntryNamesUnpadded(BofaDetailed);
    TrimsBlanks(header, "Date", "Description", "Amount");
    DetectBofa(header);
  }

  /** " Description" and " Amount" are not the names bofa_detailed looks up. */
  lemma PaddedHeaderMissesDescription(header: seq<string>, rows: seq<seq<Cell>>)
    requires IsPaddedHeader(header)
    ensures ProjectAsWritten(Table(header, rows), BofaDetailed) == Failure(MissingColumn("Description"))
  {
    assert header[0] == "Date";
    assert |header[1]| != |"Description"| && |header[2]| != |"Description"|;
    MissesDescription(header, rows, BofaDetailed);
  }

  /** The discrepancy: the padded header is detected as bofa_detailed, yet
      the lookup by raw names misses " Description" and fails, while the
      lookup by stripped names succeeds. */
  lemma PaddedHeaderRejected(header: seq<string>, rows: seq<seq<Cell>>)
    requires IsPaddedHeader(header)
    ensures Detect(header) == BofaDetailed
    ensures ProjectAsWritten(Table(header, rows), BofaDetailed) == Failure(MissingColumn("Description"))
    ensures Project(Table(header, rows), BofaDetailed).Success?
  {
    PaddedHeaderDetected(header, rows);
    PaddedHeaderMissesDescription(header, rows);
  }

  /** The as-written lookup fails whenever detection falls back to generic:
      the stripped lookup already fails there, and it accepts every table
      the as-written one accepts. */
  lemma GenericFailsAsWritten(table: Table)
    requires Detect(table.columns) == Generic
    ensures ProjectAsWritten(table, Generic).Failure?
  {
    ProjectSucceedsIffMatched(table);
    assert Formats[3] == Generic;
    if ProjectAsWritten(table, Generic).Success? {
      CorrectedAcceptsMore(table, Generic);
    }
  }

  /** Whichever lookup is used, a run whose format falls back to generic
      ends in a missing column. */
  lemma GenericRunFails(table: Table, parseDate: string -> Option<CalendarDate>, lookup: Lookup)
    requires Detect(table.columns) == Generic
    ensures Prepare(table, parseDate, lookup).Failure?
    ensures Prepare(table, parseDate, lookup).error.MissingColumn?
  {
    ProjectSucceedsIffMatched(table);
    GenericFailsAsWritten(table);
  }

  /** On a header without padding converter.py and the corrected lookup
      produce the same run. */
  lemma RunsAgreeOnUnpaddedHeader(table: Table, parseDate: string -> Option<CalendarDate>)
    requires Unpadded(table.columns)
    ensures Prepare(table, parseDate, RawNames) == Prepare(table, parseDate, StrippedNames)
  {
    AgreeOnUnpaddedHeader(table, Detect(table.columns));
  }

  /** The discrepancy on a whole run: an empty statement under the padded
      header fails in converter.py and converts to no transactions with the
      corrected lookup. */
  lemma PaddedHeaderRun(header: seq<string>, parseDate: string -> Option<CalendarDate>)
    requires IsPaddedHeader(header)
    ensures Prepare(Table(header, []), parseDate, RawNames) == Failure(MissingColumn("Description"))
    ensures Prepare(Table(header, []), parseDate, StrippedNames) == Success([])
  {
    PaddedHeaderRejected(header, []);
  }
}
