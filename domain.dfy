/** The entities and enumerations of the time-entry pipeline: imported
    entries, mapping rules, submission audit records, import sources and the
    Timelog project/task reference data. Timestamps (`DateTimeOffset`) are
    integers supplied by the caller; calendar dates (`DateOnly`) are
    year/month/day triples. */
module Domain {
  import opened Wrappers
  import opened Text

  datatype SourceType = Tempo | FileUpload

  datatype ImportStatus = Pending | Mapped | Submitted | Failed | Ignored

  datatype SubmissionStatus = Success | SubmissionFailed | Retrying

  /** The rule operator. A stored value outside the four named members of
      the enumeration is `Undefined`; the matcher rejects it. */
  datatype MatchOperator = Equals | Contains | StartsWith | Regex | Undefined(code: int)

  // ------------------------------------------------------------------
  // Calendar dates
  // ------------------------------------------------------------------

  datatype Date = Date(year: int, month: int, day: int)

  predicate IsLeapYear(y: int) {
    (y % 4 == 0 && y % 100 != 0) || y % 400 == 0
  }

  function DaysInMonth(y: int, m: int): int {
    if m == 2 then (if IsLeapYear(y) then 29 else 28)
    else if m == 4 || m == 6 || m == 9 || m == 11 then 30
    else 31
  }

  /** The range `DateOnly` can represent. */
  predicate ValidDate(d: Date) {
    1 <= d.year <= 9999 && 1 <= d.month <= 12 && 1 <= d.day <= DaysInMonth(d.year, d.month)
  }

  /** A number that orders dates chronologically. */
  function DateKey(d: Date): int {
    d.year * 10000 + d.month * 100 + d.day
  }

  /** `date.ToString("yyyy-MM-dd")`. */
  function FormatDate(d: Date): string {
    PadLeft(IntToString(d.year), 4, '0') + "-" + PadLeft(IntToString(d.month), 2, '0')
      + "-" + PadLeft(IntToString(d.day), 2, '0')
  }

  // ------------------------------------------------------------------
  // The metadata bag
  // ------------------------------------------------------------------

  /** One JSON property value of the metadata bag: a JSON string, JSON null,
      or any other kind of value, kept as its raw JSON text. */
  datatype MetaVal = Str(s: string) | Null | Raw(text: string)

  /** A JSON object: its properties in document order. */
  type Bag = seq<(string, MetaVal)>

  // ------------------------------------------------------------------
  // Entities
  // ------------------------------------------------------------------

  /** A time entry as imported from a source. `metadata` is None when the
      stored JSON is null, blank or unparsable. */
  datatype ImportedEntry = ImportedEntry(
    id: int,
    sourceId: int,
    externalId: string,
    userEmail: string,
    workDate: Date,
    timeSpentSeconds: int,
    description: Option<string>,
    projectKey: Option<string>,
    issueKey: Option<string>,
    activity: Option<string>,
    metadata: Option<Bag>,
    status: ImportStatus,
    importedAt: int,
    mappingRuleId: Option<int>,
    projectId: Option<int>,
    taskId: Option<int>)

  datatype MappingRule = MappingRule(
    id: int,
    name: string,
    sourceType: Option<SourceType>,
    matchField: string,
    matchOperator: MatchOperator,
    matchValue: string,
    projectId: int,
    taskId: Option<int>,
    priority: int,
    isEnabled: bool,
    createdAt: int)

  /** The audit record of the booking attempts of one entry. `externalId`
      would hold the Timelog registration id. */
  datatype SubmittedEntry = SubmittedEntry(
    id: int,
    entryId: int,
    externalId: Option<string>,
    status: SubmissionStatus,
    submittedAt: int,
    errorMessage: Option<string>,
    attemptCount: int)

  datatype ImportSource = ImportSource(
    id: int,
    name: string,
    sourceType: SourceType,
    apiToken: Option<string>,
    isEnabled: bool,
    lastPolledAt: Option<int>)

  datatype TimelogProject = TimelogProject(
    id: int,
    externalId: string,
    name: string,
    description: Option<string>,
    isActive: bool,
    lastSyncedAt: int)

  datatype TimelogTask = TimelogTask(
    id: int,
    externalId: string,
    name: string,
    isActive: bool,
    lastSyncedAt: int,
    projectId: int)
}
