/** The delivery-report merger of scripts/dcm_report.py: a quote-aware line
    splitter, a case-folding header locator over a six-line window after a
    "Report Fields" marker, a per-file row builder and the two keep-first
    de-duplication passes over the merged rows. Files are given as
    (name, lines) pairs; reading them from a folder is not modelled. */
module DcmReport {
  import opened Strings
  import Dates
  import Dedup

  const Delimiter := ','
  const Marker := "Report Fields"
  const GrandTotal := "Grand Total:"
  const HeaderWindow := 6
  /** The required columns followed by the optional ones, as searched. */
  const SearchedColumns := ["date", "placement id", "impressions", "clicks", "video completions"]

  // ---------------------------------------------------------------------
  // custom_csv_parse
  // ---------------------------------------------------------------------

  /** The splitter's loop variables: fields, current_field, in_quotes. */
  datatype SplitState = SplitState(fields: seq<string>, current: string, inQuotes: bool)

  /** One iteration of the character loop. */
  function Step(st: SplitState, c: char, delim: char): SplitState {
    if c == '"' then st.(inQuotes := !st.inQuotes)
    else if c == delim && !st.inQuotes then SplitState(st.fields + [Trim(st.current)], "", st.inQuotes)
    else st.(current := st.current + [c])
  }

  /** The loop state after reading all of `line`. */
  function Scan(line: string, delim: char): SplitState
    decreases |line|
  {
    if |line| == 0 then SplitState([], "", false)
    else Step(Scan(line[..|line| - 1], delim), line[|line| - 1], delim)
  }

  /** The fields custom_csv_parse returns. */
  function SplitFields(line: string, delim: char): seq<string> {
    var st := Scan(line, delim);
    st.fields + [Trim(st.current)]
  }

  method CustomCsvParse(line: string, delimiter: char) returns (fields: seq<string>)
    ensures fields == SplitFields(line, delimiter)
  {
    fields := [];
    var current := "";
    var inQuotes := false;
    for i := 0 to |line|
      invariant SplitState(fields, current, inQuotes) == Scan(line[..i], delimiter)
    {
      var c := line[i];
      assert line[..i + 1][..i] == line[..i];
      if c == '"' {
        inQuotes := !inQuotes;
      } else if c == delimiter && !inQuotes {
        fields := fields + [Trim(current)];
        current := "";
      } else {
        current := current + [c];
      }
    }
    assert line[..|line|] == line;
    fields := fields + [Trim(current)];
  }

  /** Number of quote characters in `s`. */
  function QuoteCount(s: string): nat
    decreases |s|
  {
    if |s| == 0 then 0 else QuoteCount(s[..|s| - 1]) + (if s[|s| - 1] == '"' then 1 else 0)
  }

  /** Number of positions of `s` holding the delimiter with an even number of
      quote characters before them, i.e. delimiters outside quotes. */
  function UnquotedDelimiters(s: string, delim: char): nat
    decreases |s|
  {
    if |s| == 0 then 0
    else
      var p := s[..|s| - 1];
      UnquotedDelimiters(p, delim) +
        (if s[|s| - 1] == delim && delim != '"' && QuoteCount(p) % 2 == 0 then 1 else 0)
  }

  predicate IsTrimmed(f: string) {
    |f| > 0 ==> !IsSpace(f[0]) && !IsSpace(f[|f| - 1])
  }

  /** Quoted mode is the parity of the quote characters read so far. */
  lemma {:induction false} ScanQuoteParity(s: string, delim: char)
    ensures Scan(s, delim).inQuotes <==> QuoteCount(s) % 2 == 1
    decreases |s|
  {
    if |s| > 0 {
      ScanQuoteParity(s[..|s| - 1], delim);
    }
  }

  /** One finished field per delimiter read outside quotes. */
  lemma {:induction false} ScanFieldCount(s: string, delim: char)
    ensures |Scan(s, delim).fields| == UnquotedDelimiters(s, delim)
    decreases |s|
  {
    if |s| > 0 {
      var p := s[..|s| - 1];
      ScanFieldCount(p, delim);
      ScanQuoteParity(p, delim);
    }
  }

  /** Neither the pending text nor a finished field holds a quote. */
  lemma {:induction false} ScanNoQuotes(s: string, delim: char)
    ensures '"' !in Scan(s, delim).current
    ensures forall f :: f in Scan(s, delim).fields ==> '"' !in f
    decreases |s|
  {
    if |s| > 0 {
      var p := s[..|s| - 1];
      ScanNoQuotes(p, delim);
      TrimKeeps(Scan(p, delim).current);
    }
  }

  /** Every finished field is stripped. */
  lemma {:induction false} ScanTrimmed(s: string, delim: char)
    ensures forall f :: f in Scan(s, delim).fields ==> IsTrimmed(f)
    decreases |s|
  {
    if |s| > 0 {
      ScanTrimmed(s[..|s| - 1], delim);
    }
  }

  /** custom_csv_parse returns one field more than there are delimiters
      outside quotes: never an empty list. */
  lemma FieldCount(line: string, delim: char)
    ensures |SplitFields(line, delim)| == 1 + UnquotedDelimiters(line, delim)
  {
    ScanFieldCount(line, delim);
  }

  /** Quote characters only toggle quoted mode: no field contains one. Every
      field is stripped of surrounding white space. */
  lemma FieldsHaveNoQuotes(line: string, delim: char)
    ensures forall f :: f in SplitFields(line, delim) ==> '"' !in f && IsTrimmed(f)
  {
    ScanNoQuotes(line, delim);
    ScanTrimmed(line, delim);
    TrimKeeps(Scan(line, delim).current);
  }

  /** The splitter state a quote-free prefix `s` leaves: the stripped pieces
      of str.split but the last, which is still pending. */
  predicate ScansAsSplit(s: string, delim: char) {
    var p := Split(s, delim);
    Scan(s, delim) == SplitState(TrimAll(p[..|p| - 1]), p[|p| - 1], false)
  }

  lemma {:induction false} ScanUnquoted(s: string, delim: char)
    requires '"' !in s && delim != '"'
    ensures ScansAsSplit(s, delim)
    decreases |s|
  {
    if |s| > 0 {
      var s', c := s[..|s| - 1], s[|s| - 1];
      assert s == s' + [c];
      ScanUnquoted(s', delim);
      if c == delim {
        ScanUnquotedDelimiter(s', delim);
      } else {
        ScanUnquotedOther(s', c, delim);
      }
    }
  }

  lemma ScanUnquotedDelimiter(s: string, delim: char)
    requires delim != '"' && ScansAsSplit(s, delim)
    ensures ScansAsSplit(s + [delim], delim)
  {
    var p' := Split(s, delim);
    assert (s + [delim])[..|s|] == s;
    SplitSnocSep(s, delim);
    TrimAllSnoc(p');
    var p := p' + [""];
    assert p[..|p| - 1] == p';
  }

  lemma ScanUnquotedOther(s: string, c: char, delim: char)
    requires c != delim && c != '"' && ScansAsSplit(s, delim)
    ensures ScansAsSplit(s + [c], delim)
  {
    var p' := Split(s, delim);
    assert (s + [c])[..|s|] == s;
    SplitSnocOther(s, c, delim);
    var p := p'[..|p'| - 1] + [p'[|p'| - 1] + [c]];
    assert p[..|p| - 1] == p'[..|p'| - 1];
  }

  /** On a line without quotes the splitter is str.split followed by
      str.strip on every piece. */
  lemma UnquotedIsPlainSplit(line: string, delim: char)
    requires '"' !in line && delim != '"'
    ensures SplitFields(line, delim) == TrimAll(Split(line, delim))
  {
    var p := Split(line, delim);
    var st := Scan(line, delim);
    ScanUnquoted(line, delim);
    assert st.fields == TrimAll(p[..|p| - 1]) && st.current == p[|p| - 1];
    TrimAllSnoc(p);
  }

  /** A character that is neither a quote, the delimiter nor white space. */
  predicate Ordinary(c: char, delim: char) {
    c != '"' && c != delim && !IsSpace(c)
  }

  /** The state after x,"y,z for ordinary characters x, y and z: one field
      done, inside quotes, with the delimiter kept in the pending text. */
  lemma OpenQuoteScan(x: char, y: char, z: char, delim: char)
    requires delim != '"' && Ordinary(x, delim) && Ordinary(y, delim) && Ordinary(z, delim)
    ensures Scan([x, delim, '"', y, delim, z], delim) == SplitState([[x]], [y, delim, z], true)
  {
    var line := [x, delim, '"', y, delim, z];
    assert line[..1][..0] == [];
    assert line[..2][..1] == line[..1];
    assert line[..3][..2] == line[..2];
    assert line[..4][..3] == line[..3];
    assert line[..5][..4] == line[..4];
    assert line[..5] == line[..|line| - 1];
    assert Scan(line[..1], delim) == SplitState([], [x], false);
    TrimmedFixed([x]);
    assert Scan(line[..2], delim) == SplitState([[x]], [], false);
    assert Scan(line[..3], delim) == SplitState([[x]], [], true);
    assert Scan(line[..4], delim) == SplitState([[x]], [y], true);
    assert Scan(line[..5], delim) == SplitState([[x]], [y, delim], true);
  }

  /** A delimiter between quotes stays inside its field: x,"y,z",w gives the
      three fields x, y,z and w. */
  lemma QuotedDelimiterExample(x: char, y: char, z: char, w: char, delim: char)
    requires delim != '"' && Ordinary(x, delim) && Ordinary(y, delim) && Ordinary(z, delim) && Ordinary(w, delim)
    ensures SplitFields([x, delim, '"', y, delim, z, '"', delim, w], delim) == [[x], [y, delim, z], [w]]
  {
    var line := [x, delim, '"', y, delim, z, '"', delim, w];
    OpenQuoteScan(x, y, z, delim);
    assert line[..6] == [x, delim, '"', y, delim, z];
    assert line[..7][..6] == line[..6];
    assert line[..8][..7] == line[..7];
    assert line[..8] == line[..|line| - 1];
    assert Scan(line[..7], delim) == SplitState([[x]], [y, delim, z], false);
    TrimmedFixed([y, delim, z]);
    assert Scan(line[..8], delim) == SplitState([[x], [y, delim, z]], [], false);
    assert Scan(line, delim) == SplitState([[x], [y, delim, z]], [w], false);
    TrimmedFixed([w]);
  }

  /** An unterminated quote is not an error: in x,"y,z the rest of the line,
      delimiter included, goes to the last field. */
  lemma UnterminatedQuoteExample(x: char, y: char, z: char, delim: char)
    requires delim != '"' && Ordinary(x, delim) && Ordinary(y, delim) && Ordinary(z, delim)
    ensures SplitFields([x, delim, '"', y, delim, z], delim) == [[x], [y, delim, z]]
  {
    OpenQuoteScan(x, y, z, delim);
    TrimmedFixed([y, delim, z]);
  }

  // ---------------------------------------------------------------------
  // find_required_columns
  // ---------------------------------------------------------------------

  /** [item.lower() for item in row]. */
  function LowerRow(row: seq<string>): (r: seq<string>)
    ensures |r| == |row| && forall i :: 0 <= i < |row| ==> r[i] == Lower(row[i])
  {
    seq(|row|, i requires 0 <= i < |row| => Lower(row[i]))
  }

  /** list.index, with None for the ValueError case. */
  function IndexOf(row: seq<string>, x: string): (r: Option<nat>)
    ensures r.Some? ==> r.value < |row| && row[r.value] == x &&
                        forall j :: 0 <= j < r.value ==> row[j] != x
    ensures r.None? <==> x !in row
    decreases |row|
  {
    if |row| == 0 then None
    else if row[0] == x then Some(0)
    else match IndexOf(row[1..], x)
      case None => None
      case Some(k) => Some(k + 1)
  }

  /** The column index find_required_columns records for `name`: its position
      in the first header row whose lowered cells contain it. */
  function Locate(rows: seq<seq<string>>, name: string): Option<nat>
    decreases |rows|
  {
    if |rows| == 0 then None
    else match IndexOf(LowerRow(rows[0]), name)
      case Some(k) => Some(k)
      case None => Locate(rows[1..], name)
  }

  /** The whole map find_required_columns returns, built name by name. */
  function ColumnIndices(rows: seq<seq<string>>, names: seq<string>): map<string, Option<nat>>
    decreases |names|
  {
    if |names| == 0 then map[]
    else ColumnIndices(rows, names[..|names| - 1])[names[|names| - 1] := Locate(rows, names[|names| - 1])]
  }

  /** The map has one entry per searched name, holding where that name was
      located. */
  lemma {:induction false} ColumnIndicesSpec(rows: seq<seq<string>>, names: seq<string>)
    ensures ColumnIndices(rows, names).Keys == set n | n in names
    ensures forall n :: n in names ==> ColumnIndices(rows, names)[n] == Locate(rows, n)
    decreases |names|
  {
    if |names| > 0 {
      var init := names[..|names| - 1];
      ColumnIndicesSpec(rows, init);
      assert names == init + [names[|names| - 1]];
    }
  }

  /** No header row holds `name` once lowered. */
  predicate AbsentFrom(rows: seq<seq<string>>, name: string) {
    forall j :: 0 <= j < |rows| ==> name !in LowerRow(rows[j])
  }

  /** Row `j` is the first header row holding `name` once lowered, and `v`
      is the first position of `name` in it. */
  predicate FirstFoundAt(rows: seq<seq<string>>, name: string, j: nat, v: nat) {
    && j < |rows|
    && (forall j' :: 0 <= j' < j ==> name !in LowerRow(rows[j']))
    && v < |rows[j]|
    && Lower(rows[j][v]) == name
    && forall k :: 0 <= k < v ==> Lower(rows[j][k]) != name
  }

  /** A name is unresolved exactly when no header row contains it once
      lowered; otherwise it resolves to its first position in the first row
      that contains it. */
  lemma {:induction false} LocateSpec(rows: seq<seq<string>>, name: string)
    ensures Locate(rows, name).None? <==> AbsentFrom(rows, name)
    ensures Locate(rows, name).Some? ==> exists j :: FirstFoundAt(rows, name, j, Locate(rows, name).value)
    decreases |rows|
  {
    if |rows| > 0 {
      LocateSpec(rows[1..], name);
      AbsentCons(rows, name);
      match IndexOf(LowerRow(rows[0]), name)
      case Some(k) =>
        FoundInFirstRow(rows, name, k);
      case None =>
        if Locate(rows[1..], name).Some? {
          var v := Locate(rows[1..], name).value;
          var j :| FirstFoundAt(rows[1..], name, j, v);
          FoundInLaterRow(rows, name, j, v);
        }
    }
  }

  lemma AbsentCons(rows: seq<seq<string>>, name: string)
    requires |rows| > 0
    ensures AbsentFrom(rows, name) <==> name !in LowerRow(rows[0]) && AbsentFrom(rows[1..], name)
  {
    if name !in LowerRow(rows[0]) && AbsentFrom(rows[1..], name) {
      forall j | 1 <= j < |rows| ensures name !in LowerRow(rows[j]) {
        assert rows[j] == rows[1..][j - 1];
      }
    }
  }

  lemma FoundInFirstRow(rows: seq<seq<string>>, name: string, k: nat)
    requires |rows| > 0 && IndexOf(LowerRow(rows[0]), name) == Some(k)
    ensures FirstFoundAt(rows, name, 0, k)
  {
    var lowered := LowerRow(rows[0]);
    forall k' | 0 <= k' < k ensures Lower(rows[0][k']) != name {
      assert lowered[k'] == Lower(rows[0][k']);
    }
  }

  lemma FoundInLaterRow(rows: seq<seq<string>>, name: string, j: nat, v: nat)
    requires |rows| > 0 && name !in LowerRow(rows[0]) && FirstFoundAt(rows[1..], name, j, v)
    ensures FirstFoundAt(rows, name, j + 1, v)
  {
    assert rows[1..][j] == rows[j + 1];
    forall j' | 0 <= j' < j + 1 ensures name !in LowerRow(rows[j']) {
      if j' > 0 { assert rows[j'] == rows[1..][j' - 1]; }
    }
  }

  method FindRequiredColumns(headerRows: seq<seq<string>>, columns: seq<string>)
    returns (indices: map<string, Option<nat>>)
    ensures indices == ColumnIndices(headerRows, columns)
  {
    indices := map[];
    for i := 0 to |columns|
      invariant indices == ColumnIndices(headerRows, columns[..i])
    {
      var col := columns[i];
      assert columns[..i + 1][..i] == columns[..i];
      ghost var before := indices;
      indices := indices[col := None];
      var j := 0;
      while j < |headerRows|
        invariant 0 <= j <= |headerRows|
        invariant indices == before[col := None]
        invariant Locate(headerRows, col) == Locate(headerRows[j..], col)
      {
        var lowerRow := LowerRow(headerRows[j]);
        var index := IndexOf(lowerRow, col);
        if index.Some? {
          indices := indices[col := index];
          break;
        }
        assert headerRows[j..][1..] == headerRows[j + 1..];
        j := j + 1;
      }
    }
    assert columns[..|columns|] == columns;
  }

  // ---------------------------------------------------------------------
  // The row builder of merged_dcm_report
  // ---------------------------------------------------------------------

  datatype Error = IndexError | ValueError

  /** One dictionary appended to all_data. */
  datatype DeliveryRow = DeliveryRow(
    reportName: string,
    date: string,
    placementId: string,
    impressions: Option<int>,
    clicks: Option<int>,
    videoCompletions: Option<int>)

  /** What one data row does: nothing (skipped), one appended dictionary, or
      an exception that ends the file. */
  datatype RowOutcome = Skipped | Built(row: DeliveryRow) | Raised(error: Error)

  /** The digits int() accepts: decimal digits, with single underscores
      allowed between two digits. */
  predicate IsDigitGroups(s: string) {
    && |s| > 0 && Dates.IsDigit(s[0]) && Dates.IsDigit(s[|s| - 1])
    && DigitsOrUnderscores(s)
    && (forall i, j :: 0 <= i < |s| && 0 <= j < |s| && j == i + 1 ==> s[i] != '_' || s[j] != '_')
  }

  predicate DigitsOrUnderscores(s: string) {
    forall i :: 0 <= i < |s| ==> Dates.IsDigit(s[i]) || s[i] == '_'
  }

  /** The value of a digit string, underscores ignored. */
  function GroupsValue(s: string): nat
    requires DigitsOrUnderscores(s)
    decreases |s|
  {
    if |s| == 0 then 0
    else if s[|s| - 1] == '_' then GroupsValue(s[..|s| - 1])
    else GroupsValue(s[..|s| - 1]) * 10 + (s[|s| - 1] as int - '0' as int)
  }

  /** int(s) on an already stripped cell: an optional sign followed by digit
      groups; None for the ValueError case. */
  function ParseInt(s: string): (r: Option<int>)
    ensures r.Some? ==> |s| > 0
  {
    if |s| > 0 && (s[0] == '-' || s[0] == '+') then
      var digits := s[1..];
      if IsDigitGroups(digits) then
        var magnitude: int := GroupsValue(digits);
        Some(if s[0] == '-' then -magnitude else magnitude)
      else None
    else if IsDigitGroups(s) then Some(GroupsValue(s))
    else None
  }

  /** Without underscores the value is the plain decimal value. */
  lemma {:induction false} GroupsValuePlain(s: string)
    requires Dates.AllDigits(s)
    ensures GroupsValue(s) == Dates.DigitsValue(s)
    decreases |s|
  {
    if |s| > 0 {
      GroupsValuePlain(s[..|s| - 1]);
    }
  }

  /** int() reads back any count written in decimal, zero-padded or not. */
  lemma ParseIntPadded(n: nat, w: nat)
    requires 0 < w && n < Dates.Pow10(w)
    ensures ParseInt(Dates.Pad(n, w)) == Some(n)
  {
    var p := Dates.Pad(n, w);
    GroupsValuePlain(p);
    Dates.PadValue(n, w);
  }

  /** A cell with anything but a sign, digits and underscores is rejected;
      so is the empty cell. */
  lemma ParseIntRejects(s: string)
    requires exists i :: 0 <= i < |s| && !Dates.IsDigit(s[i]) && s[i] != '_' && s[i] != '-' && s[i] != '+'
    ensures ParseInt(s) == None
  {
    var i :| 0 <= i < |s| && !Dates.IsDigit(s[i]) && s[i] != '_' && s[i] != '-' && s[i] != '+';
    if s[0] == '-' || s[0] == '+' {
      var digits := s[1..];
      assert digits[i - 1] == s[i];
      assert !IsDigitGroups(digits);
    } else {
      assert !IsDigitGroups(s);
    }
  }

  /** column_indices.get(name, None). */
  function Column(cols: map<string, Option<nat>>, name: string): Option<nat> {
    if name in cols then cols[name] else None
  }

  /** The Clicks / Video Completions expression: None unless the column
      resolved inside the row and the cell is non-empty. */
  function OptionalCount(row: seq<string>, index: Option<nat>): Result<Option<int>, Error> {
    if index.None? || index.value >= |row| || row[index.value] == "" then Ok(None)
    else match ParseInt(row[index.value])
      case None => Err(ValueError)
      case Some(v) => Ok(Some(v))
  }

  predicate AllEmpty(row: seq<string>) {
    forall i :: 0 <= i < |row| ==> row[i] == ""
  }

  /** The body of the data-row loop for one parsed row. */
  function BuildRow(name: string, row: seq<string>, cols: map<string, Option<nat>>): RowOutcome {
    if |row| > 0 && IsPrefix(GrandTotal, row[0]) then Skipped
    else if AllEmpty(row) then Skipped
    else
      var di, pi, ii := Column(cols, "date"), Column(cols, "placement id"), Column(cols, "impressions");
      if di.None? || pi.None? || ii.None? then Skipped
      else if di.value >= |row| then Raised(IndexError)
      else match Dates.Parse(row[di.value])
        case None => Raised(ValueError)
        case Some(date) =>
          if pi.value >= |row| || ii.value >= |row| then Raised(IndexError)
          else
            var imps := if row[ii.value] == "" then Ok(None)
                        else match ParseInt(row[ii.value])
                          case None => Err(ValueError)
                          case Some(v) => Ok(Some(v));
            var clicks := OptionalCount(row, Column(cols, "clicks"));
            var completions := OptionalCount(row, Column(cols, "video completions"));
            if imps.Err? then Raised(imps.error)
            else if clicks.Err? then Raised(clicks.error)
            else if completions.Err? then Raised(completions.error)
            else Built(DeliveryRow(name, Dates.Format(date), row[pi.value], imps.value,
                                   clicks.value, completions.value))
  }

  /** A Grand Total row and a row of empty cells never yield a record. */
  lemma SkippedRows(name: string, row: seq<string>, cols: map<string, Option<nat>>)
    requires (|row| > 0 && IsPrefix(GrandTotal, row[0])) || AllEmpty(row)
    ensures BuildRow(name, row, cols) == Skipped
  {
  }

  /** When a record is built, Clicks and Video Completions are None exactly
      when their column is unresolved, lies past the end of the row, or the
      cell is empty; Impressions is None exactly for an empty cell. The date
      is rewritten in canonical form and the placement id is the raw cell. */
  lemma BuiltRowFields(name: string, row: seq<string>, cols: map<string, Option<nat>>)
    requires BuildRow(name, row, cols).Built?
    ensures var r := BuildRow(name, row, cols).row;
      var ci := Column(cols, "clicks");
      var vi := Column(cols, "video completions");
      var ii := Column(cols, "impressions");
      && r.reportName == name
      && Dates.Parse(r.date).Some?
      && Column(cols, "placement id").Some? && ii.Some?
      && r.placementId == row[Column(cols, "placement id").value]
      && (r.impressions.None? <==> row[ii.value] == "")
      && (r.clicks.None? <==> ci.None? || ci.value >= |row| || row[ci.value] == "")
      && (r.videoCompletions.None? <==> vi.None? || vi.value >= |row| || row[vi.value] == "")
  {
    var di := Column(cols, "date");
    var date := Dates.Parse(row[di.value]).value;
    Dates.ParseFormat(date);
  }

  /** The rows one file appends, and whether an exception ended it. */
  datatype RowsResult = RowsResult(rows: seq<DeliveryRow>, aborted: bool)

  /** The data-row loop: rows are appended until the first exception. */
  function ScanRows(name: string, data: seq<seq<string>>, cols: map<string, Option<nat>>): RowsResult
    decreases |data|
  {
    if |data| == 0 then RowsResult([], false)
    else match BuildRow(name, data[0], cols)
      case Skipped => ScanRows(name, data[1..], cols)
      case Raised(_) => RowsResult([], true)
      case Built(r) =>
        var rest := ScanRows(name, data[1..], cols);
        RowsResult([r] + rest.rows, rest.aborted)
  }

  /** With date, placement id or impressions unresolved, a file yields no
      rows and no exception. */
  lemma {:induction false} UnresolvedRequiredNoRows(name: string, data: seq<seq<string>>,
                                                    cols: map<string, Option<nat>>)
    requires Column(cols, "date").None? || Column(cols, "placement id").None? ||
             Column(cols, "impressions").None?
    ensures ScanRows(name, data, cols) == RowsResult([], false)
    decreases |data|
  {
    if |data| > 0 {
      UnresolvedRequiredNoRows(name, data[1..], cols);
    }
  }

  /** Every record carries the file's name and a canonical date. */
  predicate NamedAndDated(name: string, rows: seq<DeliveryRow>) {
    forall r :: r in rows ==> r.reportName == name && Dates.Parse(r.date).Some?
  }

  /** Each appended record carries the file's name and a canonical date. */
  lemma {:induction false} ScannedRowsFields(name: string, data: seq<seq<string>>,
                                             cols: map<string, Option<nat>>)
    ensures NamedAndDated(name, ScanRows(name, data, cols).rows)
    decreases |data|
  {
    if |data| > 0 {
      ScannedRowsFields(name, data[1..], cols);
      if BuildRow(name, data[0], cols).Built? {
        BuiltRowFields(name, data[0], cols);
      }
    }
  }

  function Prepend(acc: seq<DeliveryRow>, r: RowsResult): RowsResult {
    RowsResult(acc + r.rows, r.aborted)
  }

  method ScanDataRows(name: string, data: seq<seq<string>>, cols: map<string, Option<nat>>)
    returns (rows: seq<DeliveryRow>, aborted: bool)
    ensures RowsResult(rows, aborted) == ScanRows(name, data, cols)
  {
    rows := [];
    aborted := false;
    var i := 0;
    while i < |data|
      invariant 0 <= i <= |data|
      invariant ScanRows(name, data, cols) == Prepend(rows, ScanRows(name, data[i..], cols))
    {
      assert data[i..][0] == data[i] && data[i..][1..] == data[i + 1..];
      var outcome := BuildRow(name, data[i], cols);
      match outcome {
        case Skipped =>
        case Raised(_) =>
          aborted := true;
          break;
        case Built(r) =>
          assert rows + ([r] + ScanRows(name, data[i + 1..], cols).rows) ==
                 (rows + [r]) + ScanRows(name, data[i + 1..], cols).rows;
          rows := rows + [r];
      }
      i := i + 1;
    }
    if !aborted {
      assert rows + [] == rows;
    }
  }

  // ---------------------------------------------------------------------
  // One file
  // ---------------------------------------------------------------------

  /** The index of the first line containing the marker. */
  function MarkerIndex(lines: seq<string>): (r: Option<nat>)
    ensures r.Some? ==> r.value < |lines| && Contains(lines[r.value], Marker) &&
                        forall j :: 0 <= j < r.value ==> !Contains(lines[j], Marker)
    ensures r.None? ==> forall j :: 0 <= j < |lines| ==> !Contains(lines[j], Marker)
    decreases |lines|
  {
    if |lines| == 0 then None
    else if Contains(lines[0], Marker) then Some(0)
    else match MarkerIndex(lines[1..])
      case None => None
      case Some(k) => Some(k + 1)
  }

  /** custom_csv_parse(line.strip(), ','): one line of a .csv file as fields. */
  function ParseRow(line: string): seq<string> {
    SplitFields(Trim(line), Delimiter)
  }

  /** `parse` applied to each of lines[lo..hi]. */
  function ParsedLines(lines: seq<string>, lo: nat, hi: nat, parse: string -> seq<string>): (r: seq<seq<string>>)
    requires lo <= hi <= |lines|
    ensures |r| == hi - lo
  {
    seq(hi - lo, k requires 0 <= k < hi - lo => parse(lines[lo + k]))
  }

  /** How one .csv file ends: rejected for want of a marker, abandoned by an
      exception (keeping the rows it had appended), or processed. */
  datatype FileOutcome = NoMarker | Aborted(rows: seq<DeliveryRow>) | Processed(rows: seq<DeliveryRow>)

  function FileResult(name: string, lines: seq<string>): FileOutcome {
    match MarkerIndex(lines)
    case None => NoMarker
    case Some(m) =>
      if m + HeaderWindow >= |lines| then Aborted([])
      else
        var res := ScanRows(name, ParsedLines(lines, m + 1 + HeaderWindow, |lines|, ParseRow), HeaderColumns(lines, m));
        if res.aborted then Aborted(res.rows) else Processed(res.rows)
  }

  /** A file with no marker line is rejected and yields no rows. */
  lemma FileWithoutMarker(name: string, lines: seq<string>)
    requires forall j :: 0 <= j < |lines| ==> !Contains(lines[j], Marker)
    ensures FileResult(name, lines) == NoMarker
  {
  }

  /** With fewer than six lines after the marker the header read raises
      IndexError: the file is abandoned with no rows. */
  lemma FileWithShortHeader(name: string, lines: seq<string>)
    requires MarkerIndex(lines).Some? && MarkerIndex(lines).value + HeaderWindow >= |lines|
    ensures FileResult(name, lines) == Aborted([])
  {
  }

  /** The columns a file's header window resolves. */
  function HeaderColumns(lines: seq<string>, m: nat): map<string, Option<nat>>
    requires m + HeaderWindow < |lines|
  {
    ColumnIndices(ParsedLines(lines, m + 1, m + 1 + HeaderWindow, ParseRow), SearchedColumns)
  }

  /** The rows a file with a complete header window appends. */
  function FileRows(name: string, lines: seq<string>, m: nat): RowsResult
    requires m + HeaderWindow < |lines|
  {
    ScanRows(name, ParsedLines(lines, m + 1 + HeaderWindow, |lines|, ParseRow), HeaderColumns(lines, m))
  }

  lemma FileResultRows(name: string, lines: seq<string>)
    requires MarkerIndex(lines).Some? && MarkerIndex(lines).value + HeaderWindow < |lines|
    ensures var res := FileRows(name, lines, MarkerIndex(lines).value);
      FileResult(name, lines) == if res.aborted then Aborted(res.rows) else Processed(res.rows)
  {
  }

  /** If date, placement id or impressions is missing from the header window
      the file yields no rows but still counts as processed. */
  lemma FileWithUnresolvedColumns(name: string, lines: seq<string>)
    requires MarkerIndex(lines).Some? && MarkerIndex(lines).value + HeaderWindow < |lines|
    requires var cols := HeaderColumns(lines, MarkerIndex(lines).value);
      Column(cols, "date").None? || Column(cols, "placement id").None? ||
      Column(cols, "impressions").None?
    ensures FileResult(name, lines) == Processed([])
  {
    FileResultRows(name, lines);
    HeaderMissingNoRows(name, lines, MarkerIndex(lines).value);
  }

  lemma HeaderMissingNoRows(name: string, lines: seq<string>, m: nat)
    requires m + HeaderWindow < |lines|
    requires var cols := HeaderColumns(lines, m);
      Column(cols, "date").None? || Column(cols, "placement id").None? ||
      Column(cols, "impressions").None?
    ensures FileRows(name, lines, m) == RowsResult([], false)
  {
    UnresolvedRequiredNoRows(name, ParsedLines(lines, m + 1 + HeaderWindow, |lines|, ParseRow), HeaderColumns(lines, m));
  }

  method ParseLines(lines: seq<string>, lo: nat, hi: nat) returns (rows: seq<seq<string>>)
    requires lo <= hi <= |lines|
    ensures rows == ParsedLines(lines, lo, hi, ParseRow)
  {
    rows := [];
    for k := lo to hi
      invariant rows == ParsedLines(lines, lo, k, ParseRow)
    {
      var fields := ParseLine(lines[k]);
      ParsedLinesSnoc(lines, lo, k, ParseRow);
      rows := rows + [fields];
    }
  }

  lemma ParsedLinesSnoc(lines: seq<string>, lo: nat, k: nat, parse: string -> seq<string>)
    requires lo <= k < |lines|
    ensures ParsedLines(lines, lo, k + 1, parse) == ParsedLines(lines, lo, k, parse) + [parse(lines[k])]
  {
  }

  /** custom_csv_parse(line.strip(), ','). */
  method ParseLine(line: string) returns (fields: seq<string>)
    ensures fields == ParseRow(line)
  {
    var stripped := Trim(line);
    fields := CustomCsvParse(stripped, Delimiter);
  }

  method ProcessFile(name: string, lines: seq<string>) returns (outcome: FileOutcome)
    ensures outcome == FileResult(name, lines)
  {
    var markerRow: Option<nat> := None;
    var i := 0;
    while i < |lines|
      invariant 0 <= i <= |lines|
      invariant forall j :: 0 <= j < i ==> !Contains(lines[j], Marker)
    {
      if Contains(lines[i], Marker) {
        markerRow := Some(i);
        break;
      }
      i := i + 1;
    }
    if markerRow.None? {
      return NoMarker;
    }
    var m := markerRow.value;
    assert MarkerIndex(lines) == Some(m);
    if m + HeaderWindow >= |lines| {
      return Aborted([]);
    }
    var headerRows := ParseLines(lines, m + 1, m + 1 + HeaderWindow);
    var columnIndices := FindRequiredColumns(headerRows, SearchedColumns);
    var dataRows := ParseLines(lines, m + 1 + HeaderWindow, |lines|);
    var rows, aborted := ScanDataRows(name, dataRows, columnIndices);
    if aborted {
      outcome := Aborted(rows);
    } else {
      outcome := Processed(rows);
    }
  }

  // ---------------------------------------------------------------------
  // The folder loop and the two de-duplication passes
  // ---------------------------------------------------------------------

  /** One directory entry with the lines it holds. */
  datatype ReportFile = ReportFile(name: string, lines: seq<string>)

  predicate IsCsv(f: ReportFile) {
    IsSuffix(".csv", f.name)
  }

  /** all_data, processed_files and skipped_files after the folder loop. */
  datatype MergeState = MergeState(allData: seq<DeliveryRow>, processed: seq<string>, skipped: seq<string>)

  /** One iteration of the folder loop. */
  function MergeStep(st: MergeState, f: ReportFile): MergeState {
    if !IsCsv(f) then st
    else match FileResult(f.name, f.lines)
      case NoMarker => st.(skipped := st.skipped + [f.name])
      case Aborted(rows) => st.(allData := st.allData + rows, skipped := st.skipped + [f.name])
      case Processed(rows) => st.(allData := st.allData + rows, processed := st.processed + [f.name])
  }

  /** The state after the folder loop over `files`, in listing order. */
  function MergeFiles(files: seq<ReportFile>): MergeState
    decreases |files|
  {
    if |files| == 0 then MergeState([], [], [])
    else MergeStep(MergeFiles(files[..|files| - 1]), files[|files| - 1])
  }

  /** total_files: the number of .csv entries. */
  function CsvCount(files: seq<ReportFile>): nat
    decreases |files|
  {
    if |files| == 0 then 0
    else CsvCount(files[..|files| - 1]) + (if IsCsv(files[|files| - 1]) then 1 else 0)
  }

  /** The names of the .csv entries, in listing order. */
  function CsvNames(files: seq<ReportFile>): seq<string>
    decreases |files|
  {
    if |files| == 0 then []
    else CsvNames(files[..|files| - 1]) + (if IsCsv(files[|files| - 1]) then [files[|files| - 1].name] else [])
  }

  /** Every .csv file ends up exactly once in processed or skipped, and
      nothing else does; every appended row carries the name of a file in
      one of the two lists and a canonical date. */
  lemma MergeAccounting(files: seq<ReportFile>)
    ensures multiset(MergeFiles(files).processed + MergeFiles(files).skipped) == multiset(CsvNames(files))
    ensures |MergeFiles(files).processed| + |MergeFiles(files).skipped| == CsvCount(files)
    ensures forall n :: n in MergeFiles(files).processed + MergeFiles(files).skipped ==> IsSuffix(".csv", n)
    ensures forall r :: r in MergeFiles(files).allData ==>
      r.reportName in MergeFiles(files).processed + MergeFiles(files).skipped &&
      Dates.Parse(r.date).Some?
  {
    MergeNames(files);
    MergeRows(files);
  }

  lemma {:induction false} MergeNames(files: seq<ReportFile>)
    ensures multiset(MergeFiles(files).processed + MergeFiles(files).skipped) == multiset(CsvNames(files))
    ensures |MergeFiles(files).processed| + |MergeFiles(files).skipped| == CsvCount(files)
    decreases |files|
  {
    if |files| > 0 {
      var init, f := files[..|files| - 1], files[|files| - 1];
      MergeNames(init);
      MergeStepNames(MergeFiles(init), f);
    }
  }

  /** One iteration adds the entry's name to exactly one list when it is a
      .csv entry, and nothing otherwise. */
  lemma MergeStepNames(st: MergeState, f: ReportFile)
    ensures var st' := MergeStep(st, f);
      multiset(st'.processed + st'.skipped) ==
        multiset(st.processed + st.skipped) + (if IsCsv(f) then multiset{f.name} else multiset{})
  {
    var p, q := st.processed, st.skipped;
    if IsCsv(f) {
      match FileResult(f.name, f.lines)
      case NoMarker =>
        assert p + (q + [f.name]) == (p + q) + [f.name];
      case Aborted(rows) =>
        assert p + (q + [f.name]) == (p + q) + [f.name];
      case Processed(rows) =>
        assert multiset(p + [f.name] + q) == multiset(p) + multiset{f.name} + multiset(q);
    }
  }

  lemma {:induction false} MergeRows(files: seq<ReportFile>)
    ensures forall n :: n in MergeFiles(files).processed + MergeFiles(files).skipped ==> IsSuffix(".csv", n)
    ensures forall r :: r in MergeFiles(files).allData ==>
      r.reportName in MergeFiles(files).processed + MergeFiles(files).skipped &&
      Dates.Parse(r.date).Some?
    decreases |files|
  {
    if |files| > 0 {
      var init, f := files[..|files| - 1], files[|files| - 1];
      MergeRows(init);
      if IsCsv(f) {
        match FileResult(f.name, f.lines)
        case NoMarker =>
        case Aborted(rows) =>
          FileRowsFields(f.name, f.lines);
        case Processed(rows) =>
          FileRowsFields(f.name, f.lines);
      }
    }
  }

  /** The rows a file contributes carry its name and a canonical date. */
  lemma FileRowsFields(name: string, lines: seq<string>)
    ensures var res := FileResult(name, lines);
      (res.Aborted? || res.Processed?) ==> NamedAndDated(name, res.rows)
  {
    var mi := MarkerIndex(lines);
    if mi.Some? && mi.value + HeaderWindow < |lines| {
      FileResultRows(name, lines);
      ScannedRowsFields(name, ParsedLines(lines, mi.value + 1 + HeaderWindow, |lines|, ParseRow), HeaderColumns(lines, mi.value));
    }
  }

  /** Entries that are not .csv files have no effect. */
  lemma {:induction false} MergeIgnoresOtherFiles(files: seq<ReportFile>)
    ensures MergeFiles(files) == MergeFiles(FilterCsv(files))
    decreases |files|
  {
    if |files| > 0 {
      var init, f := files[..|files| - 1], files[|files| - 1];
      assert files == init + [f];
      MergeIgnoresOtherFiles(init);
      FilterCsvSnoc(init, f);
      MergeSnoc(init, f);
      var a, b := MergeFiles(init), MergeFiles(FilterCsv(init));
      assert a == b;
      if IsCsv(f) {
        MergeSnoc(FilterCsv(init), f);
        assert MergeStep(a, f) == MergeStep(b, f);
      } else {
        assert MergeStep(a, f) == a;
        assert FilterCsv(files) == FilterCsv(init) + [] == FilterCsv(init);
      }
    }
  }

  lemma MergeSnoc(files: seq<ReportFile>, f: ReportFile)
    ensures MergeFiles(files + [f]) == MergeStep(MergeFiles(files), f)
  {
    assert (files + [f])[..|files|] == files;
  }

  /** The .csv entries of a listing, in order. */
  function FilterCsv(files: seq<ReportFile>): seq<ReportFile>
    decreases |files|
  {
    if |files| == 0 then []
    else FilterCsv(files[..|files| - 1]) + (if IsCsv(files[|files| - 1]) then [files[|files| - 1]] else [])
  }

  lemma FilterCsvSnoc(files: seq<ReportFile>, f: ReportFile)
    ensures FilterCsv(files + [f]) == FilterCsv(files) + (if IsCsv(f) then [f] else [])
  {
    assert (files + [f])[..|files|] == files;
  }

  /** The written rows: the five reported columns, without "Report Name". */
  datatype OutputRow = OutputRow(
    date: string,
    placementId: string,
    impressions: Option<int>,
    clicks: Option<int>,
    videoCompletions: Option<int>)

  /** The subset both drop_duplicates calls use. */
  function Reported(r: DeliveryRow): OutputRow {
    OutputRow(r.date, r.placementId, r.impressions, r.clicks, r.videoCompletions)
  }

  /** The subset with the file name added: keeping "Report Name" through the
      first pass is what gives the second pass, which drops that column and
      de-duplicates again (scripts/dcm_report.py:119-120), work to do. */
  function ReportedWithName(r: DeliveryRow): (string, OutputRow) {
    (r.reportName, Reported(r))
  }

  /** The written report; None when all_data is empty and nothing is written. */
  function FinalReport(allData: seq<DeliveryRow>): Option<seq<OutputRow>> {
    if |allData| == 0 then None
    else Some(Dedup.DedupBy(Dedup.Project(Dedup.DedupBy(allData, Reported), Reported), Dedup.Identity))
  }

  /** The first pass already keys on the same five columns, so the second
      pass removes nothing. */
  lemma SecondPassRemovesNothing(allData: seq<DeliveryRow>)
    requires |allData| > 0
    ensures FinalReport(allData) == Some(Dedup.Project(Dedup.DedupBy(allData, Reported), Reported))
  {
    var first := Dedup.DedupBy(allData, Reported);
    var projected := Dedup.Project(first, Reported);
    Dedup.DedupUnique(allData, Reported);
    assert Dedup.UniqueKeys(projected, Dedup.Identity) by {
      forall i, j | 0 <= i < j < |projected|
        ensures Dedup.Identity(projected[i]) != Dedup.Identity(projected[j])
      {
        assert Reported(first[i]) != Reported(first[j]);
      }
    }
    Dedup.DedupOfUnique(projected, Dedup.Identity);
  }

  /** Keying the first pass on the file name as well, as the comment before
      the second pass (scripts/dcm_report.py:119) implies, writes the same
      report as the code's subset at scripts/dcm_report.py:117. */
  lemma FirstPassWithNameAgrees(allData: seq<DeliveryRow>)
    requires |allData| > 0
    ensures FinalReport(allData) ==
      Some(Dedup.DedupBy(Dedup.Project(Dedup.DedupBy(allData, ReportedWithName), Reported), Dedup.Identity))
  {
    var second := (p: (string, OutputRow)) => p.1;
    Dedup.TwoPassDedup(allData, ReportedWithName, Reported, second);
    SecondPassRemovesNothing(allData);
  }

  /** The written report lists each distinct row of all_data once, as its
      first occurrence, in order of first occurrence. */
  lemma FinalReportContents(allData: seq<DeliveryRow>)
    requires |allData| > 0
    ensures var out := FinalReport(allData).value;
      && (forall i, j :: 0 <= i < j < |out| ==> out[i] != out[j])
      && (forall r :: r in allData ==> Reported(r) in out)
      && (forall o :: o in out ==> exists r :: r in allData && Reported(r) == o)
  {
    SecondPassRemovesNothing(allData);
    ReportedDistinct(allData);
    ReportedCovers(allData);
    ReportedSound(allData);
  }

  lemma ReportedDistinct(allData: seq<DeliveryRow>)
    ensures var out := Dedup.Project(Dedup.DedupBy(allData, Reported), Reported);
      forall i, j :: 0 <= i < j < |out| ==> out[i] != out[j]
  {
    Dedup.DedupUnique(allData, Reported);
  }

  lemma ReportedCovers(allData: seq<DeliveryRow>)
    ensures forall r :: r in allData ==> Reported(r) in Dedup.Project(Dedup.DedupBy(allData, Reported), Reported)
  {
    var first := Dedup.DedupBy(allData, Reported);
    var out := Dedup.Project(first, Reported);
    forall r | r in allData ensures Reported(r) in out {
      var v :| 0 <= v < |allData| && allData[v] == r;
      Dedup.DedupKeys(allData, Reported, Reported(r));
      var w :| 0 <= w < |first| && Reported(first[w]) == Reported(r);
      assert out[w] == Reported(r);
    }
  }

  lemma ReportedSound(allData: seq<DeliveryRow>)
    ensures forall o :: o in Dedup.Project(Dedup.DedupBy(allData, Reported), Reported) ==>
      exists r :: r in allData && Reported(r) == o
  {
    var first := Dedup.DedupBy(allData, Reported);
    var out := Dedup.Project(first, Reported);
    forall o | o in out ensures exists r :: r in allData && Reported(r) == o {
      var w :| 0 <= w < |out| && out[w] == o;
      assert first[w] in allData;
    }
  }

  method MergedDcmReport(files: seq<ReportFile>)
    returns (report: Option<seq<OutputRow>>, processed: seq<string>, skipped: seq<string>, totalFiles: nat)
    ensures processed == MergeFiles(files).processed
    ensures report == FinalReport(MergeFiles(files).allData)
    ensures skipped == MergeFiles(files).skipped
    ensures totalFiles == CsvCount(files)
  {
    var allData: seq<DeliveryRow> := [];
    processed := [];
    skipped := [];
    totalFiles := 0;
    for i := 0 to |files|
      invariant MergeState(allData, processed, skipped) == MergeFiles(files[..i])
      invariant totalFiles == CsvCount(files[..i])
    {
      var f := files[i];
      assert files[..i + 1][..i] == files[..i];
      if IsSuffix(".csv", f.name) {
        totalFiles := totalFiles + 1;
        var outcome := ProcessFile(f.name, f.lines);
        match outcome {
          case NoMarker =>
            skipped := skipped + [f.name];
          case Aborted(rows) =>
            allData := allData + rows;
            skipped := skipped + [f.name];
          case Processed(rows) =>
            allData := allData + rows;
            processed := processed + [f.name];
        }
      }
    }
    assert files[..|files|] == files;
    report := FinalReport(allData);
  }
}

