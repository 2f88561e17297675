/** The static table of known bank layouts and `detect_bank_format`
    (converter.py): the first layout, in declaration order, whose three
    column names all occur among the whitespace-trimmed column names. */
module BankFormats {
  import opened Text

  /** One entry of the table: the bank's key and the column names it maps
      the date, description and amount fields to. */
  datatype BankFormat = BankFormat(name: string, date: string, description: string, amount: string)

  const BofaDetailed := BankFormat("bofa_detailed", "Date", "Description", "Amount")
  const Chase := BankFormat("chase", "Posting Date", "Description", "Amount")
  const Wells := BankFormat("wells", "Date", "Description", "Amount")
  const Generic := BankFormat("generic", "Date", "Description", "Amount")

  /** The table in declaration order, which is the order detection tries it in. */
  const Formats := [BofaDetailed, Chase, Wells, Generic]

  /** The contents of the table: four keys in declaration order, all naming
      Description and Amount, and all but chase naming Date. */
  lemma FormatTable()
    ensures |Formats| == 4
    ensures Formats[0].name == "bofa_detailed" && Formats[1].name == "chase"
    ensures Formats[2].name == "wells" && Formats[3].name == "generic"
    ensures forall f :: f in Formats ==> f.description == "Description" && f.amount == "Amount"
    ensures forall f :: f in Formats ==> f.date == (if f == Chase then "Posting Date" else "Date")
  {
  }

  /** The column names with surrounding whitespace stripped from each. */
  function Trimmed(columns: seq<string>): (r: seq<string>)
    ensures |r| == |columns|
    ensures forall i :: 0 <= i < |columns| ==> r[i] == Strip(columns[i])
  {
    seq(|columns|, i requires 0 <= i < |columns| => Strip(columns[i]))
  }

  /** All three of the format's column names are present. */
  predicate Matches(f: BankFormat, columns: seq<string>) {
    f.date in columns && f.description in columns && f.amount in columns
  }

  /** The index of the first format that matches, or |formats| if none does. */
  function FirstMatch(formats: seq<BankFormat>, columns: seq<string>): (k: nat)
    ensures k <= |formats|
    ensures k < |formats| ==> Matches(formats[k], columns)
    ensures forall j :: 0 <= j < k ==> !Matches(formats[j], columns)
  {
    if formats == [] then 0
    else if Matches(formats[0], columns) then 0
    else 1 + FirstMatch(formats[1..], columns)
  }

  /** `detect_bank_format`: the first matching entry over the trimmed column
      names, falling back to the generic entry when none matches. */
  function Detect(rawColumns: seq<string>): (f: BankFormat)
    ensures f in Formats
    ensures Matches(f, Trimmed(rawColumns)) || f == Generic
  {
    var k := FirstMatch(Formats, Trimmed(rawColumns));
    if k < |Formats| then Formats[k] else Generic
  }

  /** The detected format is the first match in declaration order, and the
      generic fallback is taken exactly when nothing matches. */
  lemma DetectIsFirstMatch(rawColumns: seq<string>)
    ensures var f := Detect(rawColumns);
      (exists k :: 0 <= k < |Formats| && Formats[k] == f && Matches(f, Trimmed(rawColumns))
                   && forall j :: 0 <= j < k ==> !Matches(Formats[j], Trimmed(rawColumns)))
      || (f == Generic && forall j :: 0 <= j < |Formats| ==> !Matches(Formats[j], Trimmed(rawColumns)))
  {
    var k := FirstMatch(Formats, Trimmed(rawColumns));
    if k < |Formats| {
      assert Formats[k] == Detect(rawColumns);
    }
  }

  /** Date, Description and Amount together always mean bofa_detailed, even
      when Posting Date is present too. */
  lemma DetectBofa(rawColumns: seq<string>)
    requires "Date" in Trimmed(rawColumns) && "Description" in Trimmed(rawColumns) && "Amount" in Trimmed(rawColumns)
    ensures Detect(rawColumns) == BofaDetailed
  {
    assert Matches(Formats[0], Trimmed(rawColumns));
  }

  /** chase is detected exactly when Posting Date, Description and Amount are
      present and Date is not. */
  lemma DetectChase(rawColumns: seq<string>)
    ensures Detect(rawColumns) == Chase <==>
      ("Posting Date" in Trimmed(rawColumns) && "Description" in Trimmed(rawColumns)
       && "Amount" in Trimmed(rawColumns) && "Date" !in Trimmed(rawColumns))
  {
    var cols := Trimmed(rawColumns);
    if Matches(Formats[0], cols) {
      assert FirstMatch(Formats, cols) == 0;
    } else if Matches(Formats[1], cols) {
      assert FirstMatch(Formats, cols) == 1;
    } else {
      assert !Matches(Formats[2], cols) && !Matches(Formats[3], cols);
      assert FirstMatch(Formats, cols) == 4;
    }
  }

  /** wells shares bofa_detailed's column names and comes after it, so it is
      never detected. */
  lemma NeverWells(rawColumns: seq<string>)
    ensures Detect(rawColumns).name != "wells"
  {
    var cols := Trimmed(rawColumns);
    if Matches(Formats[0], cols) {
      assert FirstMatch(Formats, cols) == 0;
    } else {
      assert !Matches(Formats[2], cols);
    }
  }

  /** The generic entry is returned exactly when no entry matches, that is
      when neither the bofa_detailed nor the chase names are all present. */
  lemma DetectGeneric(rawColumns: seq<string>)
    ensures Detect(rawColumns) == Generic <==> forall j :: 0 <= j < |Formats| ==> !Matches(Formats[j], Trimmed(rawColumns))
  {
    var cols := Trimmed(rawColumns);
    if Matches(Formats[0], cols) {
      assert FirstMatch(Formats, cols) == 0;
    } else if Matches(Formats[1], cols) {
      assert FirstMatch(Formats, cols) == 1;
    } else {
      assert !Matches(Formats[2], cols) && !Matches(Formats[3], cols);
    }
  }

  /** Stripping the column names first does not change the detection. */
  lemma DetectIgnoresPadding(rawColumns: seq<string>)
    ensures Detect(Trimmed(rawColumns)) == Detect(rawColumns)
  {
    var cols := Trimmed(rawColumns);
    forall i | 0 <= i < |cols| ensures Strip(cols[i]) == cols[i] {
      StripIdempotent(rawColumns[i]);
    }
    assert Trimmed(cols) == cols;
  }
}
