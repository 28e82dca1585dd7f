/** Validation and normalisation of an uploaded hospital CSV (parse_csv).
    Decoding and splitting are taken as done: the input is the header line's
    field names and one dict per data row, keyed by those names. */
module CsvUtils {
  import opened Values
  import opened Text

  /** The only column names a CSV may carry. */
  const ExpectedFields: set<string> := {"name", "address", "phone"}

  /** A normalised row, emitted as {"name", "address", "phone"}. */
  datatype HospitalRecord = HospitalRecord(name: string, address: string, phone: Option<string>)

  datatype ParseError =
    | InvalidHeaders                          // HTTPException 400: header not a subset
    | MissingFields(row: map<string, string>) // HTTPException 400: empty name or address
    | MissingKey(key: string)                 // KeyError: the column is absent from the header

  datatype ParseResult = Parsed(hospitals: seq<HospitalRecord>) | Failure(error: ParseError)

  /** expected_fields.issuperset(fieldnames) */
  predicate HeadersValid(header: seq<string>) {
    forall h :: h in header ==> h in ExpectedFields
  }

  /** Why a row is refused, if it is: the raw name is looked up and tested
      first, then the raw address; `or` stops at the first failing test. */
  function RowError(row: map<string, string>): Option<ParseError> {
    if "name" !in row then Some(MissingKey("name"))
    else if row["name"] == "" then Some(MissingFields(row))
    else if "address" !in row then Some(MissingKey("address"))
    else if row["address"] == "" then Some(MissingFields(row))
    else None
  }

  /** row.get("phone", "").strip() or None */
  function Phone(row: map<string, string>): (p: Option<string>)
    ensures p == None <==> "phone" !in row || Strip(row["phone"]) == ""
    ensures p != None ==> p.value == Strip(row["phone"]) && p.value != ""
  {
    var v := Strip(if "phone" in row then row["phone"] else "");
    if v == "" then None else Some(v)
  }

  /** The record a well-formed row becomes. */
  function Normalize(row: map<string, string>): HospitalRecord
    requires "name" in row && "address" in row
  {
    HospitalRecord(Strip(row["name"]), Strip(row["address"]), Phone(row))
  }

  /** records ++ the outcome of the remaining rows. */
  function Prepend(records: seq<HospitalRecord>, rest: ParseResult): ParseResult {
    match rest
    case Parsed(hs) => Parsed(records + hs)
    case Failure(e) => Failure(e)
  }

  /** The rows in order: the first refused row aborts the whole parse. */
  function ParseRows(rows: seq<map<string, string>>): ParseResult {
    if rows == [] then Parsed([])
    else match RowError(rows[0])
      case Some(e) => Failure(e)
      case None => Prepend([Normalize(rows[0])], ParseRows(rows[1..]))
  }

  /** ParseRows unfolded once at position i. */
  lemma ParseRowsAt(rows: seq<map<string, string>>, i: int)
    requires 0 <= i < |rows|
    ensures ParseRows(rows[i..]) ==
              match RowError(rows[i])
              case Some(e) => Failure(e)
              case None => Prepend([Normalize(rows[i])], ParseRows(rows[i + 1..]))
  {
    assert rows[i..][0] == rows[i] && rows[i..][1..] == rows[i + 1..];
  }

  lemma PrependTwice(a: seq<HospitalRecord>, b: seq<HospitalRecord>, rest: ParseResult)
    ensures Prepend(a, Prepend(b, rest)) == Prepend(a + b, rest)
  {
    if rest.Parsed? {
      assert a + (b + rest.hospitals) == (a + b) + rest.hospitals;
    }
  }

  /** What parse_csv returns or raises for a header and its data rows. */
  function Parse(header: seq<string>, rows: seq<map<string, string>>): ParseResult {
    if !HeadersValid(header) then Failure(InvalidHeaders) else ParseRows(rows)
  }

  /** parse_csv: check the header, then walk the rows appending one record
      each, stopping at the first row that is refused. */
  method ParseCsv(header: seq<string>, rows: seq<map<string, string>>) returns (r: ParseResult)
    ensures r == Parse(header, rows)
  {
    var ok := forall h :: h in header ==> h in ExpectedFields;
    if !ok {
      return Failure(InvalidHeaders);
    }
    var hospitals: seq<HospitalRecord> := [];
    var i := 0;
    while i < |rows|
      invariant 0 <= i <= |rows|
      invariant ParseRows(rows) == Prepend(hospitals, ParseRows(rows[i..]))
    {
      var row := rows[i];
      ParseRowsAt(rows, i);
      if "name" !in row {
        return Failure(MissingKey("name"));
      }
      if row["name"] == "" {
        return Failure(MissingFields(row));
      }
      if "address" !in row {
        return Failure(MissingKey("address"));
      }
      if row["address"] == "" {
        return Failure(MissingFields(row));
      }
      var record := HospitalRecord(Strip(row["name"]), Strip(row["address"]), Phone(row));
      assert record == Normalize(row);
      PrependTwice(hospitals, [record], ParseRows(rows[i + 1..]));
      hospitals := hospitals + [record];
      i := i + 1;
    }
    assert rows[i..] == [];
    return Parsed(hospitals);
  }

  /** The dict a record is sent as: phone None becomes JSON null. */
  function AsDict(h: HospitalRecord): (d: map<string, Value>)
    ensures d.Keys == ExpectedFields
    ensures d["name"] == Str(h.name) && d["address"] == Str(h.address)
    ensures d["phone"] == (if h.phone.Some? then Str(h.phone.value) else Null)
  {
    map["name" := Str(h.name), "address" := Str(h.address),
        "phone" := match h.phone case Some(p) => Str(p) case None => Null]
  }

  // ---- Properties of the parse ----

  /** The header check passes iff every column name is one of the three;
      absent columns do not fail it. It runs before any row is examined, and
      no row can produce its error. */
  lemma {:induction false} HeaderCheck(header: seq<string>, rows: seq<map<string, string>>)
    ensures Parse(header, rows) == Failure(InvalidHeaders) <==> !HeadersValid(header)
  {
    if HeadersValid(header) {
      RowsNeverBlameHeaders(rows);
    }
  }

  lemma {:induction false} RowsNeverBlameHeaders(rows: seq<map<string, string>>)
    ensures ParseRows(rows) != Failure(InvalidHeaders)
  {
    if rows != [] && RowError(rows[0]) == None {
      RowsNeverBlameHeaders(rows[1..]);
    }
  }

  /** The parse succeeds iff every row has a non-empty raw name and address;
      then record i is row i normalised, and there are as many records as
      rows. */
  lemma {:induction false} ParseRowsSucceeds(rows: seq<map<string, string>>)
    ensures ParseRows(rows).Parsed? <==> forall i :: 0 <= i < |rows| ==> RowError(rows[i]) == None
    ensures ParseRows(rows).Parsed? ==>
              |ParseRows(rows).hospitals| == |rows|
              && forall i :: 0 <= i < |rows| ==> ParseRows(rows).hospitals[i] == Normalize(rows[i])
  {
    if rows != [] {
      ParseRowsSucceeds(rows[1..]);
      assert forall i :: 1 <= i < |rows| ==> rows[i] == rows[1..][i - 1];
    }
  }

  /** A refused parse names the first refused row: every row before it is
      well-formed, and its error is that row's error. */
  lemma {:induction false} FirstRefusedRow(rows: seq<map<string, string>>) returns (k: nat)
    requires ParseRows(rows).Failure?
    ensures k < |rows|
    ensures forall j :: 0 <= j < k ==> RowError(rows[j]) == None
    ensures RowError(rows[k]) == Some(ParseRows(rows).error)
  {
    assert rows != [];
    if RowError(rows[0]).Some? {
      k := 0;
    } else {
      var rest := ParseRows(rows[1..]);
      assert ParseRows(rows) == Prepend([Normalize(rows[0])], rest);
      assert rest.Failure? && ParseRows(rows).error == rest.error;
      var k' := FirstRefusedRow(rows[1..]);
      k := k' + 1;
      assert rows[k] == rows[1..][k'];
      assert forall j :: 1 <= j < k ==> rows[j] == rows[1..][j - 1];
    }
  }

  /** Emitted names and addresses are stripped: no whitespace at either end,
      and stripping again changes nothing. */
  lemma NormalizedFieldsTrimmed(row: map<string, string>)
    requires RowError(row) == None
    ensures Trimmed(Normalize(row).name) && Trimmed(Normalize(row).address)
    ensures Strip(Normalize(row).name) == Normalize(row).name
    ensures Strip(Normalize(row).address) == Normalize(row).address
  {
    StripIdempotent(row["name"]);
    StripIdempotent(row["address"]);
  }

  /** The emptiness test sees the raw value, so a name or address made only
      of whitespace passes it and is emitted as the empty string. */
  lemma WhitespaceOnlyFieldsPass(row: map<string, string>)
    requires "name" in row && "address" in row
    requires row["name"] != "" && row["address"] != ""
    requires AllSpace(row["name"]) && AllSpace(row["address"])
    ensures RowError(row) == None
    ensures Normalize(row).name == "" && Normalize(row).address == ""
  {
    StripAllSpace(row["name"]);
    StripAllSpace(row["address"]);
  }

  /** A file with only the name and address columns is accepted, and its
      records have no phone. */
  lemma NoPhoneColumn(rows: seq<map<string, string>>)
    requires forall i :: 0 <= i < |rows| ==> rows[i].Keys == {"name", "address"}
    requires forall i :: 0 <= i < |rows| ==> rows[i]["name"] != "" && rows[i]["address"] != ""
    ensures Parse(["name", "address"], rows).Parsed?
    ensures |Parse(["name", "address"], rows).hospitals| == |rows|
    ensures forall i :: 0 <= i < |rows| ==> Parse(["name", "address"], rows).hospitals[i].phone == None
  {
    ParseRowsSucceeds(rows);
  }

  /** A header without "name" passes the header check, but the first row
      then raises KeyError('name'). */
  lemma NameColumnAbsent(header: seq<string>, rows: seq<map<string, string>>)
    requires HeadersValid(header) && "name" !in header
    requires rows != [] && rows[0].Keys == set h | h in header
    ensures Parse(header, rows) == Failure(MissingKey("name"))
  {
  }

  /** The two-row example: the second row's empty address refuses the file. */
  lemma EmptyAddressExample()
    ensures var row2 := map["name" := "B", "address" := "", "phone" := ""];
            Parse(["name", "address", "phone"],
                  [map["name" := "A", "address" := "123 St", "phone" := "555"], row2])
            == Failure(MissingFields(row2))
  {
    var row1 := map["name" := "A", "address" := "123 St", "phone" := "555"];
    var row2 := map["name" := "B", "address" := "", "phone" := ""];
    assert [row1, row2][1..] == [row2];
  }
}
