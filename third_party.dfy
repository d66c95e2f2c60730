/** The third-party reconciler of 3p_report.py: each merged delivery row is
    joined to every creative-metadata record whose search text contains its
    placement id, the creative name is classified into a tier and a format,
    and the joined rows are de-duplicated. The two tables are given as
    values; loading them and picking the latest metadata file is not
    modelled. */
module ThirdPartyReport {
  import opened Strings
  import Dedup

  // ---------------------------------------------------------------------
  // Inputs and outputs
  // ---------------------------------------------------------------------

  /** The metadata table: its column names and its records. A record lacks a
      key when read_csv reads that cell as NaN (an empty cell). */
  datatype MetadataTable = MetadataTable(columns: seq<string>, rows: seq<map<string, string>>)

  /** One row of the merged delivery report, read as text; a cell read_csv
      reads as NaN (an empty cell) is "". */
  datatype DeliveryRecord = DeliveryRecord(
    placementId: string, date: string, impressions: string, clicks: string, videoCompletions: string)

  /** One output row, in the column order of the written report. */
  datatype ResultRow = ResultRow(
    placementId: string, beesName: string, date: string,
    impressions: string, clicks: string, videoCompletions: string)

  const SearchColumns: seq<string> := ["creative_pixels", "creative_scripts", "creative_creative_content_munge"]
  const Sentinel := "Placement ID not found in Beeswax"
  const CreativeNameColumn := "creative_creative_name"
  const CampaignIdColumn := "campaign_campaign_id"

  /** Why process_reports stops without writing a report: no search column
      (the early return at :45-47), a NaN placement id, on which
      str.contains raises TypeError, or a matched record whose creative name
      is NaN, on which startswith raises AttributeError. */
  datatype ReportError = NoSearchColumns | PlacementIdMissing | CreativeNameMissing

  // ---------------------------------------------------------------------
  // The search text
  // ---------------------------------------------------------------------

  /** The search columns the table has, in their fixed order. */
  function AvailableColumns(columns: seq<string>): (r: seq<string>)
    ensures |r| <= |SearchColumns|
    ensures forall c :: c in r <==> c in SearchColumns && c in columns
  {
    Filter(SearchColumns, c => c in columns)
  }

  /** A cell with an empty cell as "" (fillna("")). */
  function SearchCell(row: map<string, string>, c: string): string {
    if c in row then row[c] else ""
  }

  function SearchCells(row: map<string, string>, cols: seq<string>): (r: seq<string>)
    ensures |r| == |cols| && forall i :: 0 <= i < |cols| ==> r[i] == SearchCell(row, cols[i])
  {
    seq(|cols|, i requires 0 <= i < |cols| => SearchCell(row, cols[i]))
  }

  /** combined_check: the present search cells joined with single spaces. */
  function CombinedCheck(row: map<string, string>, cols: seq<string>): string {
    Join(SearchCells(row, cols), " ")
  }

  /** Every part of a join is a substring of it. */
  lemma {:induction false} JoinContainsPart(parts: seq<string>, sep: string, i: nat)
    requires i < |parts|
    ensures Contains(Join(parts, sep), parts[i])
    decreases |parts|
  {
    if |parts| == 1 {
      ContainsMiddle("", parts[0], "");
      assert "" + parts[0] + "" == parts[0];
    } else if i == 0 {
      ContainsMiddle("", parts[0], sep + Join(parts[1..], sep));
      assert "" + parts[0] + (sep + Join(parts[1..], sep)) == Join(parts, sep);
    } else {
      JoinContainsPart(parts[1..], sep, i - 1);
      assert parts[1..][i - 1] == parts[i];
      var rest := Join(parts[1..], sep);
      ContainsMiddle(parts[0] + sep, rest, "");
      assert parts[0] + sep + rest + "" == Join(parts, sep);
      ContainsTransitive(Join(parts, sep), rest, parts[i]);
    }
  }

  /** A placement id found in any one present search cell is found in the
      search text. */
  lemma CellMatchIsMatch(row: map<string, string>, cols: seq<string>, i: nat, id: string)
    requires i < |cols| && Contains(SearchCell(row, cols[i]), id)
    ensures Contains(CombinedCheck(row, cols), id)
  {
    var cells := SearchCells(row, cols);
    JoinContainsPart(cells, " ", i);
    ContainsTransitive(Join(cells, " "), cells[i], id);
  }

  /** The converse fails: an id may match across the joining space. */
  lemma MatchAcrossCells()
    ensures var row := map["creative_pixels" := "ab", "creative_scripts" := "cd"];
      var cols := ["creative_pixels", "creative_scripts"];
      Contains(CombinedCheck(row, cols), "b c") &&
      !Contains(SearchCell(row, cols[0]), "b c") && !Contains(SearchCell(row, cols[1]), "b c")
  {
    var row := map["creative_pixels" := "ab", "creative_scripts" := "cd"];
    var cols := ["creative_pixels", "creative_scripts"];
    var cells := SearchCells(row, cols);
    assert cells == ["ab", "cd"];
    assert Join(cells, " ") == "ab cd";
    assert "ab cd"[1..4] == "b c";
    ContainsAt("ab cd", "b c", 1);
  }

  /** find_match: the records whose search text contains the id, in table
      order (case-sensitive, no word boundary). */
  function Matches(rows: seq<map<string, string>>, cols: seq<string>, id: string): seq<map<string, string>> {
    Filter(rows, (r: map<string, string>) => Contains(CombinedCheck(r, cols), id))
  }

  // ---------------------------------------------------------------------
  // Creative classification
  // ---------------------------------------------------------------------

  datatype Tier = Mobile | Desktop | CTV | UnknownTier
  datatype CreativeFormat = Banner | Video | UnknownFormat

  function TierName(t: Tier): string {
    match t
    case Mobile => "Mobile"
    case Desktop => "Desktop"
    case CTV => "CTV"
    case UnknownTier => "Unknown"
  }

  function FormatName(f: CreativeFormat): string {
    match f
    case Banner => "Banner"
    case Video => "Video"
    case UnknownFormat => "Unknown"
  }

  /** The tier rules, first rule winning. */
  function TierOf(name: string): Tier {
    if IsPrefix("MO", name) then Mobile
    else if IsPrefix("DE_", name) then Desktop
    else if IsPrefix("CTV_", name) then CTV
    else UnknownTier
  }

  /** The format rules, first rule winning. */
  function FormatOf(name: string): CreativeFormat {
    if Contains(name, "_BA_") || Contains(name, "_RM_") then Banner
    else if Contains(name, "_VI_") then Video
    else UnknownFormat
  }

  /** Series.get(col, "Unknown") on a record of a table with columns
      `header`: the cell's text; for a NaN cell of a listed column the float
      NaN, which the f-string writes "nan"; "Unknown" for a column the table
      lacks. */
  function Get(header: seq<string>, row: map<string, string>, col: string): string {
    if col in row then row[col] else if col in header then "nan" else "Unknown"
  }

  /** The creative name is a NaN cell of a listed column. */
  predicate CreativeNameIsNaN(header: seq<string>, m: map<string, string>) {
    CreativeNameColumn in header && CreativeNameColumn !in m
  }

  /** bees_name for a matched record. */
  function BeesName(campaignId: string, t: Tier, f: CreativeFormat): string {
    campaignId + "_" + TierName(t) + "_" + FormatName(f)
  }

  function MatchedName(header: seq<string>, m: map<string, string>): string {
    var creative := Get(header, m, CreativeNameColumn);
    BeesName(Get(header, m, CampaignIdColumn), TierOf(creative), FormatOf(creative))
  }

  /** The tier rules test prefixes, first rule winning: "MO" needs no
      underscore, and the test is case-sensitive. */
  lemma TierRules(rest: string)
    ensures TierOf("MO" + rest) == Mobile
    ensures TierOf("DE_" + rest) == Desktop
    ensures TierOf("CTV_" + rest) == CTV
    ensures TierOf("de_" + rest) == UnknownTier
  {
    assert ("MO" + rest)[..2] == "MO";
    var de := "DE_" + rest;
    assert de[..3] == "DE_" && de[..2][1] == 'E';
    var ctv := "CTV_" + rest;
    assert ctv[..4] == "CTV_" && ctv[..2][0] == 'C' && ctv[..3][0] == 'C';
    var lower := "de_" + rest;
    assert lower[..2][0] == 'd' && lower[..3][0] == 'd';
    assert |lower| >= 4 ==> lower[..4][0] == 'd';
  }

  /** `_BA_` or `_RM_` anywhere in the name makes a Banner, whatever else
      the name holds (a `_VI_` included). */
  lemma BannerMarkWins(p: string, q: string)
    ensures FormatOf(p + "_BA_" + q) == Banner
    ensures FormatOf(p + "_RM_" + q) == Banner
  {
    var ba, rm := p + "_BA_" + q, p + "_RM_" + q;
    assert ba[|p|..|p| + 4] == "_BA_";
    ContainsAt(ba, "_BA_", |p|);
    assert rm[|p|..|p| + 4] == "_RM_";
    ContainsAt(rm, "_RM_", |p|);
  }

  /** Without a banner mark, `_VI_` anywhere in the name makes a Video. */
  lemma VideoMark(p: string, q: string)
    requires !Contains(p + "_VI_" + q, "_BA_") && !Contains(p + "_VI_" + q, "_RM_")
    ensures FormatOf(p + "_VI_" + q) == Video
  {
    var n := p + "_VI_" + q;
    assert n[|p|..|p| + 4] == "_VI_";
    ContainsAt(n, "_VI_", |p|);
  }

  /** A name that cannot hold any of the marks is of unknown format. */
  lemma UnknownFormatRule(s: string)
    requires 'B' !in s && 'R' !in s && 'I' !in s
    ensures FormatOf(s) == UnknownFormat
  {
    MissingCharNotContained(s, "_BA_", 'B');
    MissingCharNotContained(s, "_RM_", 'R');
    MissingCharNotContained(s, "_VI_", 'I');
  }

  /** A matched row's name ends in _Banner, _Video or _Unknown. */
  lemma BeesNameSuffix(campaignId: string, t: Tier, f: CreativeFormat)
    ensures IsSuffix("_" + FormatName(f), BeesName(campaignId, t, f))
  {
    var tail := "_" + FormatName(f);
    var n := BeesName(campaignId, t, f);
    assert n == (campaignId + "_" + TierName(t)) + tail;
    assert n[|n| - |tail|..] == tail;
  }

  /** So a matched row's name is never the not-found sentinel. */
  lemma BeesNameNotSentinel(campaignId: string, t: Tier, f: CreativeFormat)
    ensures BeesName(campaignId, t, f) != Sentinel
  {
    var n := BeesName(campaignId, t, f);
    BeesNameSuffix(campaignId, t, f);
    var fn := FormatName(f);
    assert n[|n| - 1] == fn[|fn| - 1];
    assert fn[|fn| - 1] != 'x';
    assert Sentinel[|Sentinel| - 1] == 'x';
  }

  // ---------------------------------------------------------------------
  // Reading a name back
  // ---------------------------------------------------------------------

  /** The position of the last occurrence of `c` in `s`. */
  function LastIndex(s: string, c: char): (r: Option<nat>)
    ensures r.Some? ==> r.value < |s| && s[r.value] == c &&
                        forall k :: r.value < k < |s| ==> s[k] != c
    ensures r.None? ==> c !in s
    decreases |s|
  {
    if |s| == 0 then None
    else if s[|s| - 1] == c then Some(|s| - 1)
    else LastIndex(s[..|s| - 1], c)
  }

  function TierFromName(s: string): Option<Tier> {
    if s == "Mobile" then Some(Mobile) else if s == "Desktop" then Some(Desktop)
    else if s == "CTV" then Some(CTV) else if s == "Unknown" then Some(UnknownTier) else None
  }

  function FormatFromName(s: string): Option<CreativeFormat> {
    if s == "Banner" then Some(Banner) else if s == "Video" then Some(Video)
    else if s == "Unknown" then Some(UnknownFormat) else None
  }

  /** Splits a bees_name at its last two underscores. */
  function DecodeBeesName(n: string): Option<(string, Tier, CreativeFormat)> {
    match LastIndex(n, '_')
    case None => None
    case Some(j) =>
      match LastIndex(n[..j], '_')
      case None => None
      case Some(i) =>
        var tier, format := TierFromName(n[i + 1..j]), FormatFromName(n[j + 1..]);
        if tier.Some? && format.Some? then Some((n[..i], tier.value, format.value)) else None
  }

  lemma LastIndexAfter(a: string, b: string)
    requires '_' !in b
    ensures LastIndex(a + "_" + b, '_') == Some(|a|)
  {
    var s := a + "_" + b;
    var r := LastIndex(s, '_');
    forall k | |a| < k < |s| ensures s[k] != '_' {
      assert s[k] == b[k - |a| - 1];
    }
    assert s[|a|] == '_';
  }

  /** The campaign id, tier and format can be read back from a bees_name,
      whatever underscores the campaign id holds. */
  lemma DecodeBeesNameRoundTrip(campaignId: string, t: Tier, f: CreativeFormat)
    ensures DecodeBeesName(BeesName(campaignId, t, f)) == Some((campaignId, t, f))
  {
    var tn, fn := TierName(t), FormatName(f);
    NamesReadBack(t, f);
    var head := campaignId + "_" + tn;
    var n := BeesName(campaignId, t, f);
    assert n == head + "_" + fn;
    LastIndexAfter(head, fn);
    LastIndexAfter(campaignId, tn);
    ThreeParts(campaignId, tn, fn);
    DecodeAt(n, |campaignId|, |head|, t, f);
  }

  /** Tier and format names hold no underscore and read back. */
  lemma NamesReadBack(t: Tier, f: CreativeFormat)
    ensures '_' !in TierName(t) && TierFromName(TierName(t)) == Some(t)
    ensures '_' !in FormatName(f) && FormatFromName(FormatName(f)) == Some(f)
  {
  }

  /** The pieces of a + "_" + b + "_" + c. */
  lemma ThreeParts(a: string, b: string, c: string)
    ensures var n, h := a + "_" + b + "_" + c, a + "_" + b;
      && n[..|h|] == h && n[|h| + 1..] == c
      && n[|a| + 1..|h|] == b && n[..|a|] == a
  {
    var n, h := a + "_" + b + "_" + c, a + "_" + b;
    assert n == h + "_" + c;
    assert n[..|h|] == h;
    assert n[|h| + 1..] == c;
    assert n[|a| + 1..|h|] == h[|a| + 1..] == b;
    assert n[..|a|] == h[..|a|] == a;
  }

  /** DecodeBeesName once both underscores are located. */
  lemma DecodeAt(n: string, i: nat, j: nat, t: Tier, f: CreativeFormat)
    requires i < j < |n|
    requires LastIndex(n, '_') == Some(j) && LastIndex(n[..j], '_') == Some(i)
    requires TierFromName(n[i + 1..j]) == Some(t) && FormatFromName(n[j + 1..]) == Some(f)
    ensures DecodeBeesName(n) == Some((n[..i], t, f))
  {
    assert n[..j][i + 1..] == n[i + 1..j];
  }

  // ---------------------------------------------------------------------
  // The placement loop
  // ---------------------------------------------------------------------

  function SentinelRow(d: DeliveryRecord): ResultRow {
    ResultRow(d.placementId, Sentinel, d.date, d.impressions, d.clicks, d.videoCompletions)
  }

  function MatchedRow(header: seq<string>, d: DeliveryRecord, m: map<string, string>): ResultRow {
    ResultRow(d.placementId, MatchedName(header, m), d.date, d.impressions, d.clicks, d.videoCompletions)
  }

  /** The rows appended for the matches `ms` of one delivery row. */
  function MatchedRows(header: seq<string>, d: DeliveryRecord, ms: seq<map<string, string>>): (r: seq<ResultRow>)
    ensures |r| == |ms|
    decreases |ms|
  {
    if |ms| == 0 then [] else MatchedRows(header, d, ms[..|ms| - 1]) + [MatchedRow(header, d, ms[|ms| - 1])]
  }

  /** Some match has a NaN creative name. */
  predicate SomeCreativeNameIsNaN(header: seq<string>, ms: seq<map<string, string>>) {
    exists i :: 0 <= i < |ms| && CreativeNameIsNaN(header, ms[i])
  }

  /** The rows appended for one delivery row, or the exception it raises. */
  function RowsFor(header: seq<string>, rows: seq<map<string, string>>, cols: seq<string>, d: DeliveryRecord)
    : Result<seq<ResultRow>, ReportError>
  {
    if d.placementId == "" then Err(PlacementIdMissing)
    else
      var ms := Matches(rows, cols, d.placementId);
      if |ms| == 0 then Ok([SentinelRow(d)])
      else if SomeCreativeNameIsNaN(header, ms) then Err(CreativeNameMissing)
      else Ok(MatchedRows(header, d, ms))
  }

  /** results after the placement loop, or the first exception raised in it. */
  function Results(header: seq<string>, rows: seq<map<string, string>>, cols: seq<string>, dcm: seq<DeliveryRecord>)
    : Result<seq<ResultRow>, ReportError>
    decreases |dcm|
  {
    if |dcm| == 0 then Ok([])
    else match Results(header, rows, cols, dcm[..|dcm| - 1])
      case Err(e) => Err(e)
      case Ok(done) =>
        match RowsFor(header, rows, cols, dcm[|dcm| - 1])
        case Err(e) => Err(e)
        case Ok(more) => Ok(done + more)
  }

  /** Σ max(1, number of matches) over the delivery rows. */
  function FanOut(rows: seq<map<string, string>>, cols: seq<string>, dcm: seq<DeliveryRecord>): nat
    decreases |dcm|
  {
    if |dcm| == 0 then 0
    else
      var k := |Matches(rows, cols, dcm[|dcm| - 1].placementId)|;
      FanOut(rows, cols, dcm[..|dcm| - 1]) + (if k == 0 then 1 else k)
  }

  lemma {:induction false} ResultsCount(header: seq<string>, rows: seq<map<string, string>>, cols: seq<string>,
                                        dcm: seq<DeliveryRecord>)
    ensures Results(header, rows, cols, dcm).Ok? ==> |Results(header, rows, cols, dcm).value| == FanOut(rows, cols, dcm)
    decreases |dcm|
  {
    if |dcm| > 0 {
      ResultsCount(header, rows, cols, dcm[..|dcm| - 1]);
    }
  }

  /** The loop fails exactly when some delivery row raises, and then with
      the exception of the first such row. */
  lemma {:induction false} ResultsFail(header: seq<string>, rows: seq<map<string, string>>, cols: seq<string>,
                                       dcm: seq<DeliveryRecord>)
    ensures Results(header, rows, cols, dcm).Err? <==>
            exists i :: 0 <= i < |dcm| && RowsFor(header, rows, cols, dcm[i]).Err?
    ensures Results(header, rows, cols, dcm).Err? ==>
            exists i :: 0 <= i < |dcm| && RowsFor(header, rows, cols, dcm[i]).Err? &&
              Results(header, rows, cols, dcm).error == RowsFor(header, rows, cols, dcm[i]).error &&
              forall k :: 0 <= k < i ==> RowsFor(header, rows, cols, dcm[k]).Ok?
    decreases |dcm|
  {
    if |dcm| > 0 {
      var init := dcm[..|dcm| - 1];
      ResultsFail(header, rows, cols, init);
      forall i | 0 <= i < |init| ensures init[i] == dcm[i] { }
      var last := RowsFor(header, rows, cols, dcm[|dcm| - 1]);
      if Results(header, rows, cols, init).Ok? && last.Err? {
        assert forall k :: 0 <= k < |init| ==> RowsFor(header, rows, cols, dcm[k]).Ok?;
      }
    }
  }

  /** A delivery row whose placement id is NaN stops the loop: nothing is
      written, whatever the other rows hold. */
  lemma MissingPlacementIdFails(header: seq<string>, rows: seq<map<string, string>>, cols: seq<string>,
                                dcm: seq<DeliveryRecord>, i: nat)
    requires i < |dcm| && dcm[i].placementId == ""
    ensures Results(header, rows, cols, dcm).Err?
  {
    ResultsFail(header, rows, cols, dcm);
    assert RowsFor(header, rows, cols, dcm[i]).Err?;
  }

  /** Each matched row keeps the delivery fields, carries the name built from
      its record, and the rows follow the table order of the matches. */
  lemma {:induction false} MatchedRowsSpec(header: seq<string>, d: DeliveryRecord, ms: seq<map<string, string>>)
    ensures forall i :: 0 <= i < |ms| ==>
      MatchedRows(header, d, ms)[i] == ResultRow(d.placementId, MatchedName(header, ms[i]), d.date,
                                                 d.impressions, d.clicks, d.videoCompletions)
    ensures forall i :: 0 <= i < |ms| ==> MatchedRows(header, d, ms)[i].beesName != Sentinel
    decreases |ms|
  {
    if |ms| > 0 {
      var init := ms[..|ms| - 1];
      MatchedRowsSpec(header, d, init);
      forall i | 0 <= i < |ms| ensures MatchedRows(header, d, ms)[i].beesName != Sentinel {
        var creative := Get(header, ms[i], CreativeNameColumn);
        BeesNameNotSentinel(Get(header, ms[i], CampaignIdColumn), TierOf(creative), FormatOf(creative));
        if i < |init| {
          assert MatchedRows(header, d, ms)[i] == MatchedRows(header, d, init)[i];
        }
      }
    }
  }

  /** A NaN campaign id of a listed column is written "nan" into the name;
      a table without the column gives "Unknown". */
  lemma CampaignIdOfName(header: seq<string>, m: map<string, string>)
    ensures CampaignIdColumn !in m && CampaignIdColumn in header ==>
            DecodeBeesName(MatchedName(header, m)).Some? && DecodeBeesName(MatchedName(header, m)).value.0 == "nan"
    ensures CampaignIdColumn !in m && CampaignIdColumn !in header ==>
            DecodeBeesName(MatchedName(header, m)).Some? && DecodeBeesName(MatchedName(header, m)).value.0 == "Unknown"
    ensures CampaignIdColumn in m ==>
            DecodeBeesName(MatchedName(header, m)).Some? &&
            DecodeBeesName(MatchedName(header, m)).value.0 == m[CampaignIdColumn]
  {
    var creative := Get(header, m, CreativeNameColumn);
    DecodeBeesNameRoundTrip(Get(header, m, CampaignIdColumn), TierOf(creative), FormatOf(creative));
  }

  /** A delivery row with a NaN id raises; one with no match yields exactly
      the sentinel row; one with matches raises when a match has a NaN
      creative name and otherwise yields one row per match and no
      sentinel. */
  lemma RowsForSpec(header: seq<string>, rows: seq<map<string, string>>, cols: seq<string>, d: DeliveryRecord)
    ensures var ms, r := Matches(rows, cols, d.placementId), RowsFor(header, rows, cols, d);
      && (d.placementId == "" <==> r == Err(PlacementIdMissing))
      && (d.placementId != "" && |ms| == 0 <==> r == Ok([SentinelRow(d)]))
      && (r == Err(CreativeNameMissing) <==> d.placementId != "" && |ms| > 0 && SomeCreativeNameIsNaN(header, ms))
      && (r.Ok? && |ms| > 0 ==> (|r.value| == |ms| &&
                                 forall i :: 0 <= i < |ms| ==> r.value[i].beesName != Sentinel))
  {
    var ms := Matches(rows, cols, d.placementId);
    if |ms| > 0 {
      MatchedRowsSpec(header, d, ms);
      assert MatchedRows(header, d, ms)[0].beesName != Sentinel;
    }
  }

  // ---------------------------------------------------------------------
  // The whole report
  // ---------------------------------------------------------------------

  /** The date column rewritten by `formatDate` (pd.to_datetime followed by
      strftime, supplied by the caller). */
  function WithDate(formatDate: string -> string): ResultRow -> ResultRow {
    (r: ResultRow) => r.(date := formatDate(r.date))
  }

  /** The written report, or why none is written. */
  function Report(meta: MetadataTable, dcm: seq<DeliveryRecord>, formatDate: string -> string)
    : Result<seq<ResultRow>, ReportError>
  {
    var cols := AvailableColumns(meta.columns);
    if |cols| == 0 then Err(NoSearchColumns)
    else match Results(meta.columns, meta.rows, cols, dcm)
      case Err(e) => Err(e)
      case Ok(all) => Ok(Dedup.DedupBy(Dedup.Project(all, WithDate(formatDate)), Dedup.Identity))
  }

  /** A report is written exactly when a search column exists and no
      delivery row raises; its rows are then pairwise distinct and are
      exactly the joined rows with rewritten dates. */
  lemma ReportContents(meta: MetadataTable, dcm: seq<DeliveryRecord>, formatDate: string -> string)
    ensures var cols := AvailableColumns(meta.columns);
      Report(meta, dcm, formatDate).Ok? <==>
        |cols| > 0 && forall i :: 0 <= i < |dcm| ==> RowsFor(meta.columns, meta.rows, cols, dcm[i]).Ok?
    ensures var res := Results(meta.columns, meta.rows, AvailableColumns(meta.columns), dcm);
      Report(meta, dcm, formatDate).Ok? ==>
        var all := Dedup.Project(res.value, WithDate(formatDate));
        var out := Report(meta, dcm, formatDate).value;
        && (forall i, j :: 0 <= i < j < |out| ==> out[i] != out[j])
        && (forall r :: r in all <==> r in out)
  {
    var cols := AvailableColumns(meta.columns);
    var res := Results(meta.columns, meta.rows, cols, dcm);
    ResultsFail(meta.columns, meta.rows, cols, dcm);
    if |cols| > 0 && res.Ok? {
      var all := Dedup.Project(res.value, WithDate(formatDate));
      var out := Dedup.DedupBy(all, Dedup.Identity);
      Dedup.DedupUnique(all, Dedup.Identity);
      assert forall i, j :: 0 <= i < j < |out| ==> Dedup.Identity(out[i]) != Dedup.Identity(out[j]);
      forall r | r in all ensures r in out {
        var v :| 0 <= v < |all| && all[v] == r;
        Dedup.DedupKeys(all, Dedup.Identity, r);
        var w :| 0 <= w < |out| && Dedup.Identity(out[w]) == r;
      }
    }
  }

  method ProcessReports(meta: MetadataTable, dcm: seq<DeliveryRecord>, formatDate: string -> string)
    returns (output: Result<seq<ResultRow>, ReportError>)
    ensures output == Report(meta, dcm, formatDate)
  {
    var cols := AvailableColumns(meta.columns);
    if |cols| == 0 {
      return Err(NoSearchColumns);
    }
    var results := JoinPlacements(meta.columns, meta.rows, cols, dcm);
    if results.Err? {
      return Err(results.error);
    }
    var dated := Dedup.Project(results.value, WithDate(formatDate));
    output := Ok(Dedup.DedupBy(dated, Dedup.Identity));
  }

  /** The loop over the delivery rows, which stops at the first exception. */
  method JoinPlacements(header: seq<string>, rows: seq<map<string, string>>, cols: seq<string>,
                        dcm: seq<DeliveryRecord>)
    returns (results: Result<seq<ResultRow>, ReportError>)
    ensures results == Results(header, rows, cols, dcm)
  {
    var done: seq<ResultRow> := [];
    for i := 0 to |dcm|
      invariant Results(header, rows, cols, dcm[..i]) == Ok(done)
    {
      assert dcm[..i + 1][..i] == dcm[..i];
      var joined := JoinPlacement(header, rows, cols, dcm[i]);
      if joined.Err? {
        ResultsStop(header, rows, cols, dcm, i + 1);
        return Err(joined.error);
      }
      done := done + joined.value;
    }
    assert dcm[..|dcm|] == dcm;
    results := Ok(done);
  }

  /** An exception in the rows up to `n` is the loop's exception. */
  lemma {:induction false} ResultsStop(header: seq<string>, rows: seq<map<string, string>>, cols: seq<string>,
                                       dcm: seq<DeliveryRecord>, n: nat)
    requires n <= |dcm| && Results(header, rows, cols, dcm[..n]).Err?
    ensures Results(header, rows, cols, dcm) == Results(header, rows, cols, dcm[..n])
    decreases |dcm| - n
  {
    if n < |dcm| {
      assert dcm[..n + 1][..n] == dcm[..n];
      ResultsStop(header, rows, cols, dcm, n + 1);
    } else {
      assert dcm[..n] == dcm;
    }
  }

  /** The rows one delivery row appends: one per matching record, or the
      sentinel row; or the exception raised on the way. */
  method JoinPlacement(header: seq<string>, rows: seq<map<string, string>>, cols: seq<string>, d: DeliveryRecord)
    returns (joined: Result<seq<ResultRow>, ReportError>)
    ensures joined == RowsFor(header, rows, cols, d)
  {
    if d.placementId == "" {
      return Err(PlacementIdMissing);
    }
    var matched := Matches(rows, cols, d.placementId);
    if |matched| == 0 {
      return Ok([SentinelRow(d)]);
    }
    var done: seq<ResultRow> := [];
    for j := 0 to |matched|
      invariant done == MatchedRows(header, d, matched[..j])
      invariant forall k :: 0 <= k < j ==> !CreativeNameIsNaN(header, matched[k])
    {
      if CreativeNameIsNaN(header, matched[j]) {
        return Err(CreativeNameMissing);
      }
      assert matched[..j + 1][..j] == matched[..j];
      done := done + [MatchedRow(header, d, matched[j])];
    }
    assert matched[..|matched|] == matched;
    joined := Ok(done);
  }
}
