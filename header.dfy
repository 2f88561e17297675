/** The header locator of `convert_bank_to_qbo` (converter.py): the index of
    the first raw line that mentions all three column names, which becomes
    the number of lines `read_csv` skips. */
module HeaderLocator {
  import opened Wrappers
  import opened Text

  /** The heuristic test: "Date", "Description" and "Amount" all occur in the
      line as literal, case-sensitive substrings (anywhere, not per column). */
  predicate IsHeaderLine(line: string) {
    Contains(line, "Date") && Contains(line, "Description") && Contains(line, "Amount")
  }

  /** The index of the first header line, if there is one. */
  function FirstHeaderIndex(lines: seq<string>): (r: Option<nat>)
    ensures r.Some? ==> r.value < |lines| && IsHeaderLine(lines[r.value])
    ensures r.Some? ==> forall j :: 0 <= j < r.value ==> !IsHeaderLine(lines[j])
    ensures r.None? ==> forall j :: 0 <= j < |lines| ==> !IsHeaderLine(lines[j])
  {
    if lines == [] then None
    else if IsHeaderLine(lines[0]) then Some(0)
    else
      match FirstHeaderIndex(lines[1..])
      case None => None
      case Some(k) => Some(k + 1)
  }

  /** The number of lines to skip: the header's index, or 0 when none is found. */
  function SkipRows(lines: seq<string>): (n: nat)
    ensures n == 0 || n < |lines|
  {
    match FirstHeaderIndex(lines)
    case Some(i) => i
    case None => 0
  }

  /** The scan loop: stop at the first header line; if none turns up, fall
      back to skipping nothing and report that no header was found. */
  method LocateHeader(lines: seq<string>) returns (skipRows: nat, foundHeader: bool)
    ensures skipRows == 0 || skipRows < |lines|
    ensures foundHeader <==> exists j :: 0 <= j < |lines| && IsHeaderLine(lines[j])
    ensures foundHeader ==> skipRows < |lines| && IsHeaderLine(lines[skipRows])
    ensures forall j :: 0 <= j < skipRows ==> !IsHeaderLine(lines[j])
    ensures !foundHeader ==> skipRows == 0
    ensures skipRows == SkipRows(lines) && foundHeader == FirstHeaderIndex(lines).Some?
  {
    foundHeader := false;
    skipRows := 0;
    var i := 0;
    while i < |lines|
      invariant 0 <= i <= |lines|
      invariant !foundHeader && skipRows == 0
      invariant forall j :: 0 <= j < i ==> !IsHeaderLine(lines[j])
    {
      if IsHeaderLine(lines[i]) {
        skipRows := i;
        foundHeader := true;
        break;
      }
      i := i + 1;
    }
    if !foundHeader {
      skipRows := 0;
    }
    FirstHeaderUnique(lines, skipRows, foundHeader);
  }

  /** The ensures of FirstHeaderIndex pin down its result. */
  lemma FirstHeaderUnique(lines: seq<string>, skipRows: nat, found: bool)
    requires skipRows == 0 || skipRows < |lines|
    requires found ==> skipRows < |lines| && IsHeaderLine(lines[skipRows])
    requires forall j :: 0 <= j < skipRows ==> !IsHeaderLine(lines[j])
    requires !found ==> skipRows == 0 && forall j :: 0 <= j < |lines| ==> !IsHeaderLine(lines[j])
    ensures FirstHeaderIndex(lines) == if found then Some(skipRows) else None
  {
  }

  lemma PreambleIsNotHeader()
    ensures !IsHeaderLine("Statement Summary")
  {
    var preamble := "Statement Summary";
    assert forall i :: 0 <= i < |preamble| ==> preamble[i] != 'D';
    if Contains(preamble, "Description") {
      ContainsFirstChar(preamble, "Description");
    }
  }

  /** Any line that mentions the three names in this order, whatever comes
      before, between and after them, passes the test. */
  lemma NamesMakeHeader(a: string, b: string, c: string, d: string)
    ensures IsHeaderLine(a + "Date" + b + "Description" + c + "Amount" + d)
  {
    var line := a + "Date" + b + "Description" + c + "Amount" + d;
    ContainsInside(a, "Date", b + "Description" + c + "Amount" + d);
    assert line == a + "Date" + (b + "Description" + c + "Amount" + d);
    ContainsInside(a + "Date" + b, "Description", c + "Amount" + d);
    assert line == a + "Date" + b + "Description" + (c + "Amount" + d);
    ContainsInside(a + "Date" + b + "Description" + c, "Amount", d);
  }

  /** The header is the first line that passes the test, so it is skipped to. */
  lemma SkipToSecondLine(preamble: string, header: string, rest: seq<string>)
    requires !IsHeaderLine(preamble) && IsHeaderLine(header)
    ensures SkipRows([preamble, header] + rest) == 1
  {
    FirstHeaderUnique([preamble, header] + rest, 1, true);
  }

  /** A "Statement Summary" preamble line followed by a header that starts
      with Date, Description and Amount: the header is found at index 1,
      whatever further columns and lines follow. */
  lemma PreambleThenHeader(moreColumns: string, rest: seq<string>)
    ensures SkipRows(["Statement Summary", "Date" + "," + "Description" + "," + "Amount" + moreColumns] + rest) == 1
  {
    PreambleIsNotHeader();
    NamesMakeHeader("", ",", ",", moreColumns);
    assert "" + "Date" == "Date";
    SkipToSecondLine("Statement Summary", "Date" + "," + "Description" + "," + "Amount" + moreColumns, rest);
  }
}
