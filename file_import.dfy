/** Import of time entries from an uploaded CSV or Excel sheet: column
    resolution through alias tables, row validation with "Row n:" errors,
    clock-form durations, the content key that deduplicates rows, and the
    import itself, which adds only rows whose key is new for the source and
    then classifies the pending entries. Reading the file (CsvHelper,
    EPPlus), date parsing, decimal-hours parsing and the SHA-256 digest are
    parameters. */
module FileImport {
  import opened Wrappers
  import opened Text
  import opened Seqs
  import opened Domain
  import opened Store
  import opened MappingEngine
  import opened ApplyMappings

  // ------------------------------------------------------------------
  // Column aliases
  // ------------------------------------------------------------------

  /** The alias tables of the known columns, lower-cased, each in lookup
      order. */
  datatype Columns = Columns(
    date: seq<string>,
    hours: seq<string>,
    email: seq<string>,
    description: seq<string>,
    project: seq<string>,
    issue: seq<string>,
    activity: seq<string>)
  {
    /** Every alias of every known column (`KnownAliases`). */
    function Known(): seq<string> {
      date + hours + email + description + project + issue + activity
    }
  }

  /** The importer's alias tables. */
  const FileColumns := Columns(
    ["date", "workdate", "work date", "work_date", "day"],
    ["hours", "duration", "time", "timespent", "time spent", "time_spent", "h"],
    ["email", "useremail", "user email", "user_email", "user", "author"],
    ["description", "comment", "notes", "note", "desc", "summary"],
    ["projectkey", "project key", "project_key", "project", "proj"],
    ["issuekey", "issue key", "issue_key", "issue", "ticket", "jira"],
    ["activity", "type", "category", "work type"])

  // ------------------------------------------------------------------
  // Rows and column lookup
  // ------------------------------------------------------------------

  /** One sheet row as the reader hands it over: the case-insensitive
      dictionary from header to trimmed cell text, in column order. */
  type RawRow = seq<(string, string)>

  /** A row of the sheet with its row number (the header is row 1). */
  datatype SheetRow = SheetRow(number: int, cells: RawRow)

  function HeaderIs(key: string): ((string, string)) -> bool {
    (cell: (string, string)) => EqualsIgnoreCase(cell.0, key)
  }

  /** `TryGetValue` on the case-insensitive dictionary. */
  function TryGetValue(raw: RawRow, key: string): (r: Option<string>)
    ensures r.None? <==> forall k :: 0 <= k < |raw| ==> !EqualsIgnoreCase(raw[k].0, key)
    ensures r.Some? ==> exists k :: 0 <= k < |raw| && EqualsIgnoreCase(raw[k].0, key) && raw[k].1 == r.value
  {
    match FindIndex(raw, HeaderIs(key))
    case None => None
    case Some(k) => Some(raw[k].1)
  }

  /** The row has the column `alias` with a non-blank value. */
  predicate Usable(raw: RawRow, alias: string) {
    var v := TryGetValue(raw, alias); v.Some? && !IsBlank(v.value)
  }

  /** `FindField`: the value of the first alias, in list order, that the row
      has with a non-blank value; absent when there is none. */
  function FindField(raw: RawRow, aliases: seq<string>): (r: Option<string>)
    ensures r.Some? ==> !IsBlank(r.value)
  {
    if |aliases| == 0 then None
    else if Usable(raw, aliases[0]) then TryGetValue(raw, aliases[0])
    else FindField(raw, aliases[1..])
  }

  /** `FindField` is absent exactly when no alias is usable. */
  lemma {:induction false} FindFieldNone(raw: RawRow, aliases: seq<string>)
    ensures FindField(raw, aliases).None? <==> forall i :: 0 <= i < |aliases| ==> !Usable(raw, aliases[i])
  {
    if |aliases| > 0 && !Usable(raw, aliases[0]) {
      var rest := aliases[1..];
      FindFieldNone(raw, rest);
      assert forall i :: 0 < i < |aliases| ==> aliases[i] == rest[i - 1];
    }
  }

  /** A found value is that of the first usable alias, index `i`. */
  lemma {:induction false} FindFieldFirst(raw: RawRow, aliases: seq<string>) returns (i: nat)
    requires FindField(raw, aliases).Some?
    ensures i < |aliases| && Usable(raw, aliases[i])
    ensures forall j :: 0 <= j < i ==> !Usable(raw, aliases[j])
    ensures FindField(raw, aliases) == TryGetValue(raw, aliases[i])
  {
    if Usable(raw, aliases[0]) {
      i := 0;
    } else {
      var rest := aliases[1..];
      var r := FindFieldFirst(raw, rest);
      i := r + 1;
      assert aliases[i] == rest[r];
      assert forall j :: 0 < j < i ==> aliases[j] == rest[j - 1];
    }
  }

  /** A column that goes into the metadata bag: non-blank, and whose
      lower-cased header is no known alias. */
  predicate IsExtraColumn(cols: Columns, cell: (string, string)) {
    !IsBlank(cell.1) && Lower(cell.0) !in cols.Known()
  }

  /** The metadata columns of a row, in column order. */
  function Extras(raw: RawRow, cols: Columns): (r: RawRow)
    ensures |r| <= |raw|
  {
    if |raw| == 0 then []
    else
      var n := |raw| - 1;
      Extras(raw[..n], cols) + if IsExtraColumn(cols, raw[n]) then [raw[n]] else []
  }

  /** The metadata columns are exactly the row's non-blank columns whose
      lower-cased header is no known alias. */
  lemma {:induction false} ExtrasExactly(raw: RawRow, cols: Columns)
    ensures forall k :: 0 <= k < |Extras(raw, cols)| ==> IsExtraColumn(cols, Extras(raw, cols)[k]) && Extras(raw, cols)[k] in raw
    ensures forall k :: 0 <= k < |raw| && IsExtraColumn(cols, raw[k]) ==> raw[k] in Extras(raw, cols)
  {
    if |raw| > 0 {
      var n := |raw| - 1;
      ExtrasExactly(raw[..n], cols);
      var prev, r := Extras(raw[..n], cols), Extras(raw, cols);
      forall k | 0 <= k < |r| ensures IsExtraColumn(cols, r[k]) && r[k] in raw {
        if k < |prev| {
          assert r[k] == prev[k];
          assert prev[k] in raw[..n];
        }
      }
      forall k | 0 <= k < |raw| && IsExtraColumn(cols, raw[k]) ensures raw[k] in r {
        if k < n {
          assert raw[k] == raw[..n][k];
        }
      }
    }
  }

  /** The `foreach` that fills the `extra` dictionary. The row's headers are
      distinct ignoring case, so each kept column is a new key and lands at
      the end. */
  method ExtraColumns(raw: RawRow, cols: Columns) returns (extra: RawRow)
    ensures extra == Extras(raw, cols)
  {
    extra := [];
    var i := 0;
    while i < |raw|
      invariant 0 <= i <= |raw|
      invariant extra == Extras(raw[..i], cols)
    {
      assert raw[..i + 1][..i] == raw[..i];
      if IsExtraColumn(cols, raw[i]) {
        extra := extra + [raw[i]];
      }
      i := i + 1;
    }
    assert raw[..i] == raw;
  }

  // ------------------------------------------------------------------
  // Durations
  // ------------------------------------------------------------------

  predicate AllDigits(s: string) {
    forall i :: 0 <= i < |s| ==> IsDigit(s[i])
  }

  /** The number a string of decimal digits denotes. */
  function DecimalValue(s: string): nat
    requires AllDigits(s)
  {
    if |s| == 0 then 0 else DecimalValue(s[..|s| - 1]) * 10 + (s[|s| - 1] as int - '0' as int)
  }

  lemma {:induction false} DecimalValueOfText(n: nat)
    ensures AllDigits(NatToString(n)) && DecimalValue(NatToString(n)) == n
  {
    var s := NatToString(n);
    if n >= 10 {
      DecimalValueOfText(n / 10);
      assert s[..|s| - 1] == NatToString(n / 10);
    }
  }

  /** A two-digit field of at most `max`. */
  function TwoDigits(s: string, max: nat): Option<nat> {
    if |s| == 2 && AllDigits(s) && DecimalValue(s) <= max then Some(DecimalValue(s)) else None
  }

  /** The part after the hours: `mm` or `mm:ss`. */
  function ClockRest(hours: nat, rest: string): (r: Option<nat>)
    ensures r.Some? ==> r.value < 24 * 3600
  {
    if hours > 23 then None
    else if |rest| == 2 then
      match TwoDigits(rest, 59)
      case None => None
      case Some(m) => Some(hours * 3600 + m * 60)
    else if |rest| == 5 && rest[2] == ':' then
      match (TwoDigits(rest[..2], 59), TwoDigits(rest[3..], 59))
      case (Some(m), Some(sec)) => Some(hours * 3600 + m * 60 + sec)
      case _ => None
    else None
  }

  /** `TimeSpan.TryParseExact` with the formats `h:mm`, `hh:mm` and
      `h:mm:ss`: hours of one or two digits up to 23, minutes and seconds of
      exactly two digits up to 59; the result in whole seconds. */
  function ParseClock(s: string): (r: Option<nat>)
    ensures r.Some? ==> r.value < 24 * 3600
  {
    if |s| >= 2 && s[1] == ':' && IsDigit(s[0]) then
      ClockRest(DecimalValue(s[..1]), s[2..])
    else if |s| >= 3 && s[2] == ':' && AllDigits(s[..2]) && DecimalValue(s[..2]) <= 23 then
      ClockRest(DecimalValue(s[..2]), s[3..])
    else None
  }

  /** A clock text `h:mm`, hours without leading zero. */
  function ClockText(h: nat, m: nat): string {
    NatToString(h) + ":" + PadLeft(NatToString(m), 2, '0')
  }

  lemma TwoDigitText(m: nat)
    requires m < 60
    ensures TwoDigits(PadLeft(NatToString(m), 2, '0'), 59) == Some(m)
  {
    DecimalValueOfText(m);
    var t := PadLeft(NatToString(m), 2, '0');
    if m < 10 {
      assert t == ['0'] + NatToString(m);
      assert t[..1] == "0";
      assert DecimalValue(t[..1]) == DecimalValue([]) * 10 + 0;
    } else {
      assert m / 10 < 10;
      assert t == NatToString(m);
    }
  }

  /** Clock durations convert as hours * 3600 + minutes * 60. */
  lemma ClockTextParses(h: nat, m: nat)
    requires h < 24 && m < 60
    ensures ParseClock(ClockText(h, m)) == Some(h * 3600 + m * 60)
  {
    ClockRestMinutes(h, m);
    ClockTextSplits(h, m);
  }

  /** The clock text parses as its hours followed by its minutes. */
  lemma ClockTextSplits(h: nat, m: nat)
    requires h < 24
    ensures ParseClock(ClockText(h, m)) == ClockRest(h, PadLeft(NatToString(m), 2, '0'))
  {
    if h < 10 {
      OneDigitClock(NatToString(h), h, PadLeft(NatToString(m), 2, '0'));
    } else {
      TwoDigitClock(NatToString(h), h, PadLeft(NatToString(m), 2, '0'));
    }
  }

  lemma OneDigitClock(hs: string, h: nat, ms: string)
    requires hs == NatToString(h) && h < 10
    ensures ParseClock(hs + ":" + ms) == ClockRest(h, ms)
  {
    DecimalValueOfText(h);
    var s := hs + ":" + ms;
    assert s[..1] == hs && s[1] == ':' && s[2..] == ms;
  }

  lemma TwoDigitClock(hs: string, h: nat, ms: string)
    requires hs == NatToString(h) && 10 <= h < 24
    ensures ParseClock(hs + ":" + ms) == ClockRest(h, ms)
  {
    DecimalValueOfText(h);
    assert |hs| == 2;
    var s := hs + ":" + ms;
    assert s[..2] == hs && s[2] == ':' && s[3..] == ms;
  }

  lemma ClockRestMinutes(h: nat, m: nat)
    requires h < 24 && m < 60
    ensures ClockRest(h, PadLeft(NatToString(m), 2, '0')) == Some(h * 3600 + m * 60)
  {
    TwoDigitText(m);
  }

  /** "1:30" is ninety minutes. */
  lemma NinetyMinutes()
    ensures ParseClock("1:30") == Some(5400)
  {
    ClockTextParses(1, 30);
    assert ClockText(1, 30) == "1:30";
  }

  /** The parsers the core delegates to libraries: the date formats and OA
      dates of `TryParseDate`, the truncated `double` hours of
      `TryParseHours`' second branch, and the hex SHA-256 digest (first 24
      characters) of the content key. */
  datatype Parsers = Parsers(
    date: string -> Option<Date>,
    decimalHours: string -> Option<int>,
    digest: string -> string)

  /** `TryParseHours`: the clock form first, then decimal hours. */
  function ParseHours(s: string, p: Parsers): (r: Option<int>)
    ensures ParseClock(s).Some? ==> r == Some(ParseClock(s).value)
    ensures ParseClock(s).None? ==> r == p.decimalHours(s)
  {
    var clock := ParseClock(s);
    if clock.Some? then Some(clock.value) else p.decimalHours(s)
  }

  // ------------------------------------------------------------------
  // Row validation
  // ------------------------------------------------------------------

  datatype ParsedRow = ParsedRow(
    workDate: Date,
    timeSpentSeconds: int,
    userEmail: string,
    description: Option<string>,
    projectKey: Option<string>,
    issueKey: Option<string>,
    activity: Option<string>,
    extraColumns: RawRow)

  /** Why a row was rejected. */
  datatype RowProblem = MissingColumn(column: string) | BadDate(text: string) | BadHours(text: string)

  datatype RowOutcome = Parsed(row: ParsedRow) | Rejected(problems: seq<RowProblem>)

  function RowPrefix(n: int): string {
    "Row " + IntToString(n) + ": "
  }

  /** The error text of a problem in row `n`. */
  function Message(n: int, problem: RowProblem): string {
    match problem
    case MissingColumn(column) => RowPrefix(n) + "missing " + column + " column."
    case BadDate(text) => RowPrefix(n) + "cannot parse date '" + text + "'."
    case BadHours(text) => RowPrefix(n) + "cannot parse hours '" + text + "'."
  }

  /** Every error names its row. */
  lemma MessageNamesRow(n: int, problem: RowProblem)
    ensures IsPrefix(RowPrefix(n), Message(n, problem))
  {
    var pre := RowPrefix(n);
    var m := Message(n, problem);
    assert m == pre + m[|pre|..];
  }

  function Messages(n: int, problems: seq<RowProblem>): (r: seq<string>)
    ensures |r| == |problems|
    ensures forall k :: 0 <= k < |r| ==> r[k] == Message(n, problems[k])
  {
    seq(|problems|, k requires 0 <= k < |problems| => Message(n, problems[k]))
  }

  /** The missing required columns, in the order date, hours, email. */
  function MissingColumns(date: Option<string>, hours: Option<string>, email: Option<string>): (r: seq<RowProblem>)
    ensures |r| > 0 <==> date.None? || hours.None? || email.None?
    ensures date.None? ==> MissingColumn("date") in r
    ensures hours.None? ==> MissingColumn("hours") in r
    ensures email.None? ==> MissingColumn("email") in r
  {
    (if date.None? then [MissingColumn("date")] else [])
      + (if hours.None? then [MissingColumn("hours")] else [])
      + (if email.None? then [MissingColumn("email")] else [])
  }

  /** `TryParseRow` as a value: the parsed row, or why it was rejected. */
  function ParseRow(raw: RawRow, n: int, cols: Columns, p: Parsers): (r: RowOutcome)
    ensures r.Rejected? ==> |r.problems| >= 1
  {
    var date, hours, email := FindField(raw, cols.date), FindField(raw, cols.hours), FindField(raw, cols.email);
    if date.None? || hours.None? || email.None? then Rejected(MissingColumns(date, hours, email))
    else match p.date(date.value)
      case None => Rejected([BadDate(date.value)])
      case Some(d) =>
        var seconds := ParseHours(hours.value, p);
        if seconds.None? || seconds.value <= 0 then Rejected([BadHours(hours.value)])
        else Parsed(ParsedRow(d, seconds.value, email.value,
                              FindField(raw, cols.description), FindField(raw, cols.project),
                              FindField(raw, cols.issue), FindField(raw, cols.activity),
                              Extras(raw, cols)))
  }

  /** A row is accepted exactly when it has a date, an hours and an email
      column, the date parses and the duration parses to a positive number
      of seconds. */
  lemma ParseRowAccepts(raw: RawRow, n: int, cols: Columns, p: Parsers)
    ensures ParseRow(raw, n, cols, p).Parsed? <==>
      && FindField(raw, cols.date).Some? && FindField(raw, cols.hours).Some? && FindField(raw, cols.email).Some?
      && p.date(FindField(raw, cols.date).value).Some?
      && ParseHours(FindField(raw, cols.hours).value, p).Some?
      && ParseHours(FindField(raw, cols.hours).value, p).value > 0
  {
  }

  /** An accepted row carries the resolved columns: the required ones
      parsed, the optional ones as found, and the extra columns. */
  lemma ParsedRowFields(raw: RawRow, n: int, cols: Columns, p: Parsers)
    requires ParseRow(raw, n, cols, p).Parsed?
    ensures var r := ParseRow(raw, n, cols, p).row;
      && Some(r.workDate) == p.date(FindField(raw, cols.date).value)
      && Some(r.timeSpentSeconds) == ParseHours(FindField(raw, cols.hours).value, p)
      && r.timeSpentSeconds > 0
      && Some(r.userEmail) == FindField(raw, cols.email)
      && r.description == FindField(raw, cols.description) && r.projectKey == FindField(raw, cols.project)
      && r.issueKey == FindField(raw, cols.issue) && r.activity == FindField(raw, cols.activity)
      && r.extraColumns == Extras(raw, cols)
  {
  }

  /** A row missing required columns is rejected for every missing one, and
      the date and the hours are checked, in that order, only when all
      three are present. */
  lemma RejectedRowProblems(raw: RawRow, n: int, cols: Columns, p: Parsers)
    ensures var r := ParseRow(raw, n, cols, p);
      && (FindField(raw, cols.date).None? ==> r.Rejected? && MissingColumn("date") in r.problems)
      && (FindField(raw, cols.hours).None? ==> r.Rejected? && MissingColumn("hours") in r.problems)
      && (FindField(raw, cols.email).None? ==> r.Rejected? && MissingColumn("email") in r.problems)
      && (r.Rejected? && BadDate(FindField(raw, cols.date).GetOr("")) in r.problems ==> p.date(FindField(raw, cols.date).value).None?)
  {
  }

  /** `TryParseRow`: validates one row, appending its errors to `errors`. */
  method TryParseRow(raw: RawRow, n: int, errors: seq<string>, cols: Columns, p: Parsers) returns (parsed: Option<ParsedRow>, errorsOut: seq<string>)
    ensures ParseRow(raw, n, cols, p).Parsed? ==> parsed == Some(ParseRow(raw, n, cols, p).row) && errorsOut == errors
    ensures ParseRow(raw, n, cols, p).Rejected? ==> parsed.None? && errorsOut == errors + Messages(n, ParseRow(raw, n, cols, p).problems)
  {
    parsed, errorsOut := None, errors;
    var date := FindField(raw, cols.date);
    var hours := FindField(raw, cols.hours);
    var email := FindField(raw, cols.email);
    var rowErrors := Messages(n, MissingColumns(date, hours, email));
    if |rowErrors| > 0 {
      errorsOut := errors + rowErrors;
      return;
    }
    var workDate := p.date(date.value);
    if workDate.None? {
      errorsOut := errors + [Message(n, BadDate(date.value))];
      return;
    }
    var seconds := ParseHours(hours.value, p);
    if seconds.None? || seconds.value <= 0 {
      errorsOut := errors + [Message(n, BadHours(hours.value))];
      return;
    }
    var extra := ExtraColumns(raw, cols);
    parsed := Some(ParsedRow(workDate.value, seconds.value, email.value,
                             FindField(raw, cols.description), FindField(raw, cols.project),
                             FindField(raw, cols.issue), FindField(raw, cols.activity), extra));
  }

  /** `TryParseRow` on a sheet row, as a function of the row. */
  function RowParser(cols: Columns, p: Parsers): SheetRow -> RowOutcome {
    (row: SheetRow) => ParseRow(row.cells, row.number, cols, p)
  }

  /** The collected rows and errors after one more row with `outcome`. */
  function Extend(acc: (seq<ParsedRow>, seq<string>), row: SheetRow, outcome: RowOutcome): (seq<ParsedRow>, seq<string>) {
    match outcome
    case Parsed(r) => (acc.0 + [r], acc.1)
    case Rejected(problems) => (acc.0, acc.1 + Messages(row.number, problems))
  }

  /** The rows a sheet yields and the errors it reports, in sheet order,
      under the row parser `parse`. */
  function ParseAll(rows: seq<SheetRow>, parse: SheetRow -> RowOutcome): (r: (seq<ParsedRow>, seq<string>))
    ensures |r.0| <= |rows|
  {
    if |rows| == 0 then ([], [])
    else
      var n := |rows| - 1;
      Extend(ParseAll(rows[..n], parse), rows[n], parse(rows[n]))
  }

  lemma ParseAllStep(rows: seq<SheetRow>, parse: SheetRow -> RowOutcome, i: nat)
    requires i < |rows|
    ensures ParseAll(rows[..i + 1], parse) == Extend(ParseAll(rows[..i], parse), rows[i], parse(rows[i]))
  {
    assert rows[..i + 1][..i] == rows[..i];
  }

  /** A rejected row never stops the others: the sheet reports no error
      exactly when every row is accepted, and then every row is kept. */
  lemma {:induction false} ParseAllRejects(rows: seq<SheetRow>, parse: SheetRow -> RowOutcome)
    requires forall row :: parse(row).Rejected? ==> |parse(row).problems| >= 1
    ensures |ParseAll(rows, parse).1| == 0 <==> forall k :: 0 <= k < |rows| ==> parse(rows[k]).Parsed?
    ensures |ParseAll(rows, parse).1| == 0 ==>
      && |ParseAll(rows, parse).0| == |rows|
      && forall k :: 0 <= k < |rows| ==> ParseAll(rows, parse).0[k] == parse(rows[k]).row
  {
    if |rows| > 0 {
      var init := rows[..|rows| - 1];
      ParseAllRejects(init, parse);
      assert forall k :: 0 <= k < |init| ==> init[k] == rows[k];
    }
  }

  /** The importer's row parser rejects a row only with at least one
      problem. */
  lemma RowParserReports(cols: Columns, p: Parsers)
    ensures forall row :: RowParser(cols, p)(row).Rejected? ==> |RowParser(cols, p)(row).problems| >= 1
  {
  }

  /** The reading loop: `TryParseRow` on each row, collecting the accepted
      ones. */
  method ParseRows(rows: seq<SheetRow>, cols: Columns, p: Parsers) returns (parsed: seq<ParsedRow>, errors: seq<string>)
    ensures (parsed, errors) == ParseAll(rows, RowParser(cols, p))
  {
    ghost var parse := RowParser(cols, p);
    parsed, errors := [], [];
    var i := 0;
    while i < |rows|
      invariant 0 <= i <= |rows|
      invariant (parsed, errors) == ParseAll(rows[..i], parse)
    {
      ParseAllStep(rows, parse, i);
      ghost var outcome := ParseRow(rows[i].cells, rows[i].number, cols, p);
      assert parse(rows[i]) == outcome;
      var row;
      row, errors := TryParseRow(rows[i].cells, rows[i].number, errors, cols, p);
      if row.Some? {
        parsed := parsed + [row.value];
      }
      i := i + 1;
    }
    assert rows[..i] == rows;
  }

  // ------------------------------------------------------------------
  // Deduplication
  // ------------------------------------------------------------------

  function TextOrEmpty(s: Option<string>): string {
    if s.Some? then s.value else ""
  }

  /** `string.Join`: the parts with `sep` between each two. */
  function Join(parts: seq<string>, sep: string): string {
    if |parts| == 0 then ""
    else if |parts| == 1 then parts[0]
    else parts[0] + sep + Join(parts[1..], sep)
  }

  /** The fields `ComputeExternalId` hashes: source, date, user, seconds,
      description, project key and issue key, an absent value written as
      nothing. */
  function KeyFields(sourceId: int, row: ParsedRow): (r: seq<string>)
    ensures |r| == 7
  {
    [IntToString(sourceId), FormatDate(row.workDate), row.userEmail, IntToString(row.timeSpentSeconds),
     TextOrEmpty(row.description), TextOrEmpty(row.projectKey), TextOrEmpty(row.issueKey)]
  }

  /** The text `ComputeExternalId` hashes: the fields separated by '|'. */
  function ContentKey(sourceId: int, row: ParsedRow): string {
    Join(KeyFields(sourceId, row), "|")
  }

  /** `ComputeExternalId`. */
  function ExternalId(sourceId: int, row: ParsedRow, p: Parsers): (r: string)
    ensures IsPrefix("file-", r)
  {
    "file-" + p.digest(ContentKey(sourceId, row))
  }

  /** The key ignores the activity and the extra columns: rows that differ
      only there collide. */
  lemma ExternalIdIgnoresActivity(sourceId: int, a: ParsedRow, b: ParsedRow, p: Parsers)
    requires a.(activity := b.activity, extraColumns := b.extraColumns) == b
    ensures ExternalId(sourceId, a, p) == ExternalId(sourceId, b, p)
  {
  }

  /** Rows paired with their external ids. */
  type Keyed = seq<(string, ParsedRow)>

  function Fst(k: (string, ParsedRow)): string { k.0 }

  /** `ComputeExternalId` for the rows of one source. */
  function RowIds(sourceId: int, p: Parsers): ParsedRow -> string {
    (row: ParsedRow) => ExternalId(sourceId, row, p)
  }

  /** The rows paired with their ids. */
  function KeyRows(rows: seq<ParsedRow>, idOf: ParsedRow -> string): (r: Keyed)
    ensures |r| == |rows|
  {
    if |rows| == 0 then []
    else
      var n := |rows| - 1;
      KeyRows(rows[..n], idOf) + [(idOf(rows[n]), rows[n])]
  }

  /** Each row is paired with its own id. */
  lemma {:induction false} KeyRowsAt(rows: seq<ParsedRow>, idOf: ParsedRow -> string, k: nat)
    requires k < |rows|
    ensures KeyRows(rows, idOf)[k] == (idOf(rows[k]), rows[k])
  {
    var n := |rows| - 1;
    var init := KeyRows(rows[..n], idOf);
    if k < n {
      KeyRowsAt(rows[..n], idOf, k);
      assert rows[..n][k] == rows[k];
      assert KeyRows(rows, idOf)[k] == init[k];
    }
  }

  /** Row `k` is skipped: its id is already stored for the source, or an
      earlier row of the same file has it. */
  predicate IsRepeat(keyed: Keyed, seen: set<string>, k: int)
    requires 0 <= k < |keyed|
  {
    keyed[k].0 in seen || exists j :: 0 <= j < k && keyed[j].0 == keyed[k].0
  }

  /** The rows the import adds: those that are no repeat, in file order. */
  function NewRows(keyed: Keyed, seen: set<string>): (r: Keyed)
    ensures |r| <= |keyed|
  {
    if |keyed| == 0 then []
    else
      var n := |keyed| - 1;
      NewRows(keyed[..n], seen) + if IsRepeat(keyed, seen, n) then [] else [keyed[n]]
  }

  function IdSet(keyed: Keyed): set<string> {
    set k | 0 <= k < |keyed| :: keyed[k].0
  }

  lemma IsRepeatPrefix(keyed: Keyed, seen: set<string>, m: nat, k: nat)
    requires k < m <= |keyed|
    ensures IsRepeat(keyed[..m], seen, k) == IsRepeat(keyed, seen, k)
  {
    var pre := keyed[..m];
    assert forall j :: 0 <= j <= k ==> pre[j] == keyed[j];
  }

  /** The added rows have distinct ids, none stored before. */
  lemma {:induction false} NewRowsFresh(keyed: Keyed, seen: set<string>)
    ensures Distinct(NewRows(keyed, seen), Fst)
    ensures forall k :: 0 <= k < |NewRows(keyed, seen)| ==> NewRows(keyed, seen)[k].0 !in seen
  {
    if |keyed| > 0 {
      var n := |keyed| - 1;
      var init := keyed[..n];
      NewRowsFresh(init, seen);
      NewRowsIds(init, seen);
      var prev := NewRows(init, seen);
      if !IsRepeat(keyed, seen, n) {
        forall k | 0 <= k < |prev| ensures Fst(prev[k]) != Fst(keyed[n]) {
          assert prev[k].0 in IdSet(prev);
          var j :| 0 <= j < |init| && init[j].0 == prev[k].0;
          assert keyed[j] == init[j];
        }
        DistinctAppend(prev, keyed[n], Fst);
      }
    }
  }

  /** The added rows' ids are ids of the file. */
  lemma {:induction false} NewRowsIds(keyed: Keyed, seen: set<string>)
    ensures IdSet(NewRows(keyed, seen)) <= IdSet(keyed)
  {
    if |keyed| > 0 {
      var n := |keyed| - 1;
      var init := keyed[..n];
      NewRowsIds(init, seen);
      var prev := NewRows(init, seen);
      var r := NewRows(keyed, seen);
      forall x | x in IdSet(r) ensures x in IdSet(keyed) {
        var i :| 0 <= i < |r| && r[i].0 == x;
        if i < |prev| {
          assert r[i] == prev[i];
          assert prev[i].0 in IdSet(prev);
          var j :| 0 <= j < |init| && init[j].0 == x;
          assert keyed[j] == init[j];
        } else {
          assert r[i] == keyed[n];
        }
      }
    }
  }

  /** Between them, the stored ids and the added rows cover every id of the
      file. */
  lemma {:induction false} NewRowsCover(keyed: Keyed, seen: set<string>)
    ensures forall k :: 0 <= k < |keyed| ==> keyed[k].0 in seen || keyed[k].0 in IdSet(NewRows(keyed, seen))
  {
    if |keyed| > 0 {
      var n := |keyed| - 1;
      var init := keyed[..n];
      NewRowsCover(init, seen);
      var prev := NewRows(init, seen);
      var r := NewRows(keyed, seen);
      assert forall i :: 0 <= i < |prev| ==> r[i] == prev[i];
      forall k | 0 <= k < |keyed| && keyed[k].0 !in seen ensures keyed[k].0 in IdSet(r) {
        if k < n {
          assert keyed[k] == init[k];
          var j :| 0 <= j < |prev| && prev[j].0 == keyed[k].0;
          assert r[j].0 in IdSet(r);
        } else if IsRepeat(keyed, seen, n) {
          var j :| 0 <= j < n && keyed[j].0 == keyed[n].0;
          assert init[j] == keyed[j];
          var i :| 0 <= i < |prev| && prev[i].0 == init[j].0;
          assert r[i].0 in IdSet(r);
        } else {
          assert r[|r| - 1] == keyed[n];
          assert r[|r| - 1].0 in IdSet(r);
        }
      }
    }
  }

  /** Importing the same rows again, once the added ids are stored, adds
      nothing. */
  lemma ReimportAddsNothing(keyed: Keyed, seen: set<string>)
    ensures NewRows(keyed, seen + IdSet(NewRows(keyed, seen))) == []
  {
    NewRowsCover(keyed, seen);
    NoneNew(keyed, seen + IdSet(NewRows(keyed, seen)));
  }

  lemma {:induction false} NoneNew(keyed: Keyed, seen: set<string>)
    requires forall k :: 0 <= k < |keyed| ==> keyed[k].0 in seen
    ensures NewRows(keyed, seen) == []
  {
    if |keyed| > 0 {
      var n := |keyed| - 1;
      NoneNew(keyed[..n], seen);
    }
  }

  /** The `foreach` over the parsed rows: skips a row whose id is in the
      growing set of known ids, otherwise adds it and its id to the set. */
  /** The set of known ids holds row `i`'s id exactly when the row is a
      repeat. */
  lemma KnownIffRepeat(keyed: Keyed, seen: set<string>, i: nat)
    requires i < |keyed|
    ensures keyed[i].0 in seen + IdSet(keyed[..i]) <==> IsRepeat(keyed, seen, i)
  {
    if exists j :: 0 <= j < i && keyed[j].0 == keyed[i].0 {
      var j :| 0 <= j < i && keyed[j].0 == keyed[i].0;
      assert keyed[..i][j] == keyed[j];
    }
    if keyed[i].0 in IdSet(keyed[..i]) {
      var j :| 0 <= j < i && keyed[..i][j].0 == keyed[i].0;
      assert keyed[j] == keyed[..i][j];
    }
  }

  lemma IdSetStep(keyed: Keyed, i: nat)
    requires i < |keyed|
    ensures IdSet(keyed[..i + 1]) == IdSet(keyed[..i]) + {keyed[i].0}
  {
    assert forall k :: 0 <= k < i ==> keyed[..i + 1][k] == keyed[..i][k];
    assert keyed[..i + 1][i] == keyed[i];
  }

  lemma NewRowsStep(keyed: Keyed, seen: set<string>, i: nat)
    requires i < |keyed|
    ensures NewRows(keyed[..i + 1], seen) == NewRows(keyed[..i], seen) + if IsRepeat(keyed, seen, i) then [] else [keyed[i]]
  {
    assert keyed[..i + 1][..i] == keyed[..i];
    IsRepeatPrefix(keyed, seen, i + 1, i);
    assert keyed[..i + 1][i] == keyed[i];
  }

  /** The `foreach` over the parsed rows: skips a row whose id is in the
      growing set of known ids, otherwise adds it and its id to the set. */
  method Partition(rows: seq<ParsedRow>, existing: set<string>, idOf: ParsedRow -> string) returns (newRows: Keyed, skipped: nat)
    ensures newRows == NewRows(KeyRows(rows, idOf), existing)
    ensures |newRows| + skipped == |rows|
  {
    ghost var keyed := KeyRows(rows, idOf);
    var known := existing;
    newRows, skipped := [], 0;
    var i := 0;
    while i < |rows|
      invariant 0 <= i <= |rows|
      invariant known == existing + IdSet(keyed[..i])
      invariant newRows == NewRows(keyed[..i], existing)
      invariant |newRows| + skipped == i
    {
      var externalId := idOf(rows[i]);
      KeyRowsAt(rows, idOf, i);
      KnownIffRepeat(keyed, existing, i);
      IdSetStep(keyed, i);
      NewRowsStep(keyed, existing, i);
      if externalId in known {
        skipped := skipped + 1;
      } else {
        newRows := newRows + [(externalId, rows[i])];
        known := known + {externalId};
      }
      i := i + 1;
    }
    assert keyed[..i] == keyed;
  }

  // ------------------------------------------------------------------
  // The import
  // ------------------------------------------------------------------

  datatype FileImportResult = FileImportResult(totalRows: nat, imported: nat, skipped: nat, errors: seq<string>)

  function ParseFailed(message: string): string {
    "File parse failed: " + message
  }

  /** The extra columns as a metadata bag of JSON strings. */
  function ExtraBag(extra: RawRow): (bag: Bag)
    ensures |bag| == |extra|
    ensures forall k :: 0 <= k < |bag| ==> bag[k] == (extra[k].0, Str(extra[k].1))
  {
    seq(|extra|, k requires 0 <= k < |extra| => (extra[k].0, Str(extra[k].1)))
  }

  /** The entry a new row becomes: Pending, unmapped, with the row's
      columns, and metadata only when there are extra columns. */
  function NewEntry(id: int, sourceId: int, row: (string, ParsedRow), now: int): (e: ImportedEntry)
    ensures e.status == Pending && e.mappingRuleId.None? && e.projectId.None? && e.taskId.None?
    ensures e.id == id && e.sourceId == sourceId && e.externalId == row.0 && e.importedAt == now
    ensures e.workDate == row.1.workDate && e.timeSpentSeconds == row.1.timeSpentSeconds
    ensures e.userEmail == row.1.userEmail && e.description == row.1.description
    ensures e.projectKey == row.1.projectKey && e.issueKey == row.1.issueKey && e.activity == row.1.activity
    ensures e.metadata.None? <==> |row.1.extraColumns| == 0
    ensures e.metadata.Some? ==> e.metadata.value == ExtraBag(row.1.extraColumns)
  {
    var r := row.1;
    ImportedEntry(id, sourceId, row.0, r.userEmail, r.workDate, r.timeSpentSeconds, r.description,
                  r.projectKey, r.issueKey, r.activity,
                  if |r.extraColumns| > 0 then Some(ExtraBag(r.extraColumns)) else None,
                  Pending, now, None, None, None)
  }

  /** The new rows as entries, keyed from `firstId` on. */
  function NewEntries(newRows: Keyed, sourceId: int, firstId: int, now: int): (es: seq<ImportedEntry>)
    ensures |es| == |newRows|
    ensures forall k :: 0 <= k < |es| ==> es[k] == NewEntry(firstId + k, sourceId, newRows[k], now)
  {
    seq(|newRows|, k requires 0 <= k < |newRows| => NewEntry(firstId + k, sourceId, newRows[k], now))
  }

  /** Adding the new entries keeps the keys and the (source, external id)
      index of the entries table. */
  lemma AddKeepsEntriesValid(entries: seq<ImportedEntry>, newRows: Keyed, sourceId: int, next: int, now: int)
    requires EntriesValid(entries, next)
    requires Distinct(newRows, Fst)
    requires forall k :: 0 <= k < |newRows| ==> newRows[k].0 !in StoredIds(entries, sourceId)
    ensures EntriesValid(entries + NewEntries(newRows, sourceId, next, now), next + |newRows|)
  {
    var added := NewEntries(newRows, sourceId, next, now);
    var all := entries + added;
    assert Distinct(added, EntryId);
    assert Distinct(added, EntryKey) by {
      forall i, j | 0 <= i < j < |added| ensures EntryKey(added[i]) != EntryKey(added[j]) {
        assert Fst(newRows[i]) != Fst(newRows[j]);
      }
    }
    forall i, j | 0 <= i < |entries| && 0 <= j < |added| ensures EntryKey(entries[i]) != EntryKey(added[j]) {
      if entries[i].sourceId == sourceId {
        assert entries[i].externalId in StoredIds(entries, sourceId);
      }
    }
    DistinctConcat(entries, added, EntryId);
    DistinctConcat(entries, added, EntryKey);
  }

  /** `AddRange` of the new entries, with the next free keys, and
      `LastPolledAt` set on the source when it exists. */
  method SaveNew(db: Db, sourceId: int, newRows: Keyed, now: int)
    requires db.Valid()
    requires Distinct(newRows, Fst)
    requires forall k :: 0 <= k < |newRows| ==> newRows[k].0 !in StoredIds(db.entries, sourceId)
    modifies db`entries, db`sources, db`nextId
    ensures db.Valid()
    ensures db.entries == old(db.entries) + NewEntries(newRows, sourceId, old(db.nextId), now)
    ensures db.nextId == old(db.nextId) + |newRows|
    ensures db.sources == MarkPolled(old(db.sources), sourceId, now)
  {
    AddKeepsEntriesValid(db.entries, newRows, sourceId, db.nextId, now);
    db.entries := db.entries + NewEntries(newRows, sourceId, db.nextId, now);
    db.nextId := db.nextId + |newRows|;
    ghost var before := db.sources;
    db.sources := MarkPolled(db.sources, sourceId, now);
    assert SameKeys(before, db.sources, SourceId);
    SameKeysDistinct(before, db.sources, SourceId);
    SameKeysBelow(before, db.sources, SourceId, db.nextId);
  }

  /** The table after new entries are appended and classification has run
      over it: each row is the classified form of the row at its place. */
  predicate AddedAndClassified(before: seq<ImportedEntry>, added: seq<ImportedEntry>, after: seq<ImportedEntry>,
                               rules: seq<MappingRule>, sources: seq<ImportSource>, regex: RegexOracle) {
    var all := before + added;
    && |after| == |all|
    && forall k :: 0 <= k < |all| ==> after[k] == Classify(all[k], rules, sources, regex)
  }

  /** Saving the new rows and then classifying the pending entries. */
  method AddAndClassify(db: Db, sourceId: int, newRows: Keyed, now: int, regex: RegexOracle)
    requires db.Valid()
    requires Distinct(newRows, Fst)
    requires forall k :: 0 <= k < |newRows| ==> newRows[k].0 !in StoredIds(db.entries, sourceId)
    modifies db`entries, db`sources, db`nextId
    ensures db.Valid()
    ensures db.sources == MarkPolled(old(db.sources), sourceId, now)
    ensures db.nextId == old(db.nextId) + |newRows|
    ensures AddedAndClassified(old(db.entries), NewEntries(newRows, sourceId, old(db.nextId), now),
                               db.entries, db.rules, db.sources, regex)
  {
    SaveNew(db, sourceId, newRows, now);
    var mapped := ApplyAllPending(db, regex);
  }

  /** What storing the rows read from a sheet does: the rows whose id is
      new for the source (`newRows`) are counted as imported and the others
      as skipped, the sheet's errors are passed on, and only when some row is
      new are the entries appended and classified, the identity counter
      advanced and the source's LastPolledAt set; otherwise nothing
      changes. */
  predicate RowsStored(entries: seq<ImportedEntry>, sources: seq<ImportSource>, nextId: int, sourceId: int,
                       rows: seq<ParsedRow>, errors: seq<string>, p: Parsers, now: int, regex: RegexOracle,
                       res: FileImportResult, entries': seq<ImportedEntry>, sources': seq<ImportSource>, nextId': int,
                       rules: seq<MappingRule>)
  {
    var newRows := NewRows(KeyRows(rows, RowIds(sourceId, p)), StoredIds(entries, sourceId));
    && res == FileImportResult(|rows|, |newRows|, |rows| - |newRows|, errors)
    && (|newRows| == 0 ==> entries' == entries && sources' == sources && nextId' == nextId)
    && (|newRows| > 0 ==>
          && sources' == MarkPolled(sources, sourceId, now)
          && nextId' == nextId + |newRows|
          && AddedAndClassified(entries, NewEntries(newRows, sourceId, nextId, now), entries', rules, sources', regex))
  }

  /** The part of `ImportAsync` after the sheet is read, given its rows and
      errors: the rows whose id is new for the source are added as Pending
      entries, and only when something was added is the source's
      LastPolledAt set and classification run over all pending entries. */
  method StoreRows(db: Db, sourceId: int, rows: seq<ParsedRow>, errors: seq<string>, p: Parsers, now: int, regex: RegexOracle)
    returns (res: FileImportResult)
    requires db.Valid()
    modifies db`entries, db`sources, db`nextId
    ensures db.Valid()
    ensures RowsStored(old(db.entries), old(db.sources), old(db.nextId), sourceId, rows, errors, p, now, regex,
                       res, db.entries, db.sources, db.nextId, db.rules)
  {
    var existing := StoredIds(db.entries, sourceId);
    if |rows| == 0 && |errors| > 0 {
      return FileImportResult(0, 0, 0, errors);
    }
    var newRows, skipped := Partition(rows, existing, RowIds(sourceId, p));
    if |newRows| > 0 {
      NewRowsFresh(KeyRows(rows, RowIds(sourceId, p)), existing);
      AddAndClassify(db, sourceId, newRows, now, regex);
    }
    return FileImportResult(|rows|, |newRows|, skipped, errors);
  }

  /** `ImportAsync`. A file that cannot be read gives a single "File parse
      failed" error and changes nothing; otherwise its rows are validated
      with the importer's alias tables and stored. */
  method Import(db: Db, sourceId: int, file: Result<seq<SheetRow>>, p: Parsers, now: int, regex: RegexOracle)
    returns (res: FileImportResult)
    requires db.Valid()
    modifies db`entries, db`sources, db`nextId
    ensures db.Valid()
    ensures file.Err? ==>
      && res == FileImportResult(0, 0, 0, [ParseFailed(file.error)])
      && db.entries == old(db.entries) && db.sources == old(db.sources) && db.nextId == old(db.nextId)
    ensures file.Ok? ==>
      var parsed := ParseAll(file.value, RowParser(FileColumns, p));
      RowsStored(old(db.entries), old(db.sources), old(db.nextId), sourceId, parsed.0, parsed.1, p, now, regex,
                 res, db.entries, db.sources, db.nextId, db.rules)
  {
    if file.Err? {
      return FileImportResult(0, 0, 0, [ParseFailed(file.error)]);
    }
    var rows, errors := ParseRows(file.value, FileColumns, p);
    assert rows == ParseAll(file.value, RowParser(FileColumns, p)).0;
    assert errors == ParseAll(file.value, RowParser(FileColumns, p)).1;
    res := StoreRows(db, sourceId, rows, errors, p, now, regex);
  }

  // ------------------------------------------------------------------
  // Importing the same file twice
  // ------------------------------------------------------------------

  /** Classification keeps every entry's (source, external id) pair, so
      the ids stored for the source grow by exactly the added rows' ids. */
  lemma StoredIdsAfterRows(entries: seq<ImportedEntry>, sources: seq<ImportSource>, nextId: int, sourceId: int,
                           rows: seq<ParsedRow>, errors: seq<string>, p: Parsers, now: int, regex: RegexOracle,
                           res: FileImportResult, entries': seq<ImportedEntry>, sources': seq<ImportSource>, nextId': int,
                           rules: seq<MappingRule>)
    requires RowsStored(entries, sources, nextId, sourceId, rows, errors, p, now, regex, res, entries', sources', nextId', rules)
    ensures StoredIds(entries', sourceId)
         == StoredIds(entries, sourceId) + IdSet(NewRows(KeyRows(rows, RowIds(sourceId, p)), StoredIds(entries, sourceId)))
  {
    var newRows := NewRows(KeyRows(rows, RowIds(sourceId, p)), StoredIds(entries, sourceId));
    if |newRows| == 0 {
      assert IdSet(newRows) == {};
    } else {
      var added := NewEntries(newRows, sourceId, nextId, now);
      var all := entries + added;
      assert forall k :: 0 <= k < |all| ==> EntryKey(entries'[k]) == EntryKey(all[k]);
      StoredIdsSameKeys(entries', all, sourceId);
      StoredIdsAppend(entries, newRows, sourceId, nextId, now);
    }
  }

  /** Tables with the same (source, external id) pairs, position by
      position, store the same ids. */
  lemma StoredIdsSameKeys(a: seq<ImportedEntry>, b: seq<ImportedEntry>, sourceId: int)
    requires |a| == |b| && forall k :: 0 <= k < |a| ==> EntryKey(a[k]) == EntryKey(b[k])
    ensures StoredIds(a, sourceId) == StoredIds(b, sourceId)
  {
    forall x | x in StoredIds(b, sourceId) ensures x in StoredIds(a, sourceId) {
      var k :| 0 <= k < |b| && b[k].sourceId == sourceId && b[k].externalId == x;
      assert EntryKey(a[k]) == EntryKey(b[k]);
    }
    forall x | x in StoredIds(a, sourceId) ensures x in StoredIds(b, sourceId) {
      var k :| 0 <= k < |a| && a[k].sourceId == sourceId && a[k].externalId == x;
      assert EntryKey(a[k]) == EntryKey(b[k]);
    }
  }

  /** The ids stored for the source after the new entries are appended. */
  lemma StoredIdsAppend(entries: seq<ImportedEntry>, newRows: Keyed, sourceId: int, next: int, now: int)
    ensures StoredIds(entries + NewEntries(newRows, sourceId, next, now), sourceId)
         == StoredIds(entries, sourceId) + IdSet(newRows)
  {
    var added := NewEntries(newRows, sourceId, next, now);
    var all := entries + added;
    forall x | x in StoredIds(all, sourceId) ensures x in StoredIds(entries, sourceId) + IdSet(newRows) {
      var k :| 0 <= k < |all| && all[k].sourceId == sourceId && all[k].externalId == x;
      if k < |entries| {
        assert all[k] == entries[k];
      } else {
        assert all[k] == added[k - |entries|];
      }
    }
    forall x | x in StoredIds(entries, sourceId) + IdSet(newRows) ensures x in StoredIds(all, sourceId) {
      if x in StoredIds(entries, sourceId) {
        var k :| 0 <= k < |entries| && entries[k].sourceId == sourceId && entries[k].externalId == x;
        assert all[k] == entries[k];
      } else {
        var k :| 0 <= k < |newRows| && newRows[k].0 == x;
        assert all[|entries| + k] == added[k];
      }
    }
  }

  /** Importing the same file a second time, over the tables the first
      import left, imports nothing, counts every row as skipped, gives the
      same errors, and changes no table: every row's id is stored after the
      first import. */
  lemma ReimportSameFile(file: seq<SheetRow>, entries: seq<ImportedEntry>, sources: seq<ImportSource>, nextId: int,
                         sourceId: int, p: Parsers, now: int, now2: int, regex: RegexOracle, rules: seq<MappingRule>,
                         res: FileImportResult, entries': seq<ImportedEntry>, sources': seq<ImportSource>, nextId': int,
                         res2: FileImportResult, entries'': seq<ImportedEntry>, sources'': seq<ImportSource>, nextId'': int)
    requires var parsed := ParseAll(file, RowParser(FileColumns, p));
      RowsStored(entries, sources, nextId, sourceId, parsed.0, parsed.1, p, now, regex, res, entries', sources', nextId', rules)
    requires var parsed := ParseAll(file, RowParser(FileColumns, p));
      RowsStored(entries', sources', nextId', sourceId, parsed.0, parsed.1, p, now2, regex, res2, entries'', sources'', nextId'', rules)
    ensures res2.imported == 0 && res2.skipped == res2.totalRows == res.totalRows && res2.errors == res.errors
    ensures entries'' == entries' && sources'' == sources' && nextId'' == nextId'
  {
    var rows := ParseAll(file, RowParser(FileColumns, p)).0;
    var keyed := KeyRows(rows, RowIds(sourceId, p));
    var seen := StoredIds(entries, sourceId);
    StoredIdsAfterRows(entries, sources, nextId, sourceId, rows, ParseAll(file, RowParser(FileColumns, p)).1,
                       p, now, regex, res, entries', sources', nextId', rules);
    NewRowsCover(keyed, seen);
    NoneNew(keyed, StoredIds(entries', sourceId));
  }
}
