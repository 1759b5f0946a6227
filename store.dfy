/** The application database as the services see it: one table per entity,
    held in the order rows were added, and the identity counter that hands
    out primary keys. `Valid()` collects the primary keys and the unique
    indexes of the schema: (source, external id) for imported entries, one
    audit record per entry, the external id of a project, and (project,
    external id) for tasks. */
module Store {
  import opened Wrappers
  import opened Seqs
  import opened Domain

  function EntryId(e: ImportedEntry): int { e.id }
  function EntryKey(e: ImportedEntry): (int, string) { (e.sourceId, e.externalId) }
  function RuleId(r: MappingRule): int { r.id }
  function SubmissionId(s: SubmittedEntry): int { s.id }
  function SubmissionEntry(s: SubmittedEntry): int { s.entryId }
  function SourceId(s: ImportSource): int { s.id }
  function ProjectId(p: TimelogProject): int { p.id }
  function ProjectExternalId(p: TimelogProject): string { p.externalId }
  function TaskId(t: TimelogTask): int { t.id }
  function TaskKey(t: TimelogTask): (int, string) { (t.projectId, t.externalId) }

  predicate EntriesValid(es: seq<ImportedEntry>, next: int) {
    Distinct(es, EntryId) && Distinct(es, EntryKey) && Below(es, EntryId, next)
  }

  predicate RulesValid(rs: seq<MappingRule>, next: int) {
    Distinct(rs, RuleId) && Below(rs, RuleId, next)
  }

  predicate SubmissionsValid(ss: seq<SubmittedEntry>, next: int) {
    Distinct(ss, SubmissionId) && Distinct(ss, SubmissionEntry) && Below(ss, SubmissionId, next)
  }

  predicate SourcesValid(ss: seq<ImportSource>, next: int) {
    Distinct(ss, SourceId) && Below(ss, SourceId, next)
  }

  predicate ProjectsValid(ps: seq<TimelogProject>, next: int) {
    Distinct(ps, ProjectId) && Distinct(ps, ProjectExternalId) && Below(ps, ProjectId, next)
  }

  predicate TasksValid(ts: seq<TimelogTask>, next: int) {
    Distinct(ts, TaskId) && Distinct(ts, TaskKey) && Below(ts, TaskId, next)
  }

  /** Entries rewritten one for one, keeping primary key, source and
      external id, keep the table's keys valid. */
  lemma EntriesRewritten(es: seq<ImportedEntry>, fs: seq<ImportedEntry>, next: int)
    requires EntriesValid(es, next)
    requires |fs| == |es|
    requires forall k :: 0 <= k < |es| ==> fs[k].id == es[k].id && EntryKey(fs[k]) == EntryKey(es[k])
    ensures EntriesValid(fs, next)
  {
    assert SameKeys(es, fs, EntryId);
    assert SameKeys(es, fs, EntryKey);
    SameKeysDistinct(es, fs, EntryId);
    SameKeysDistinct(es, fs, EntryKey);
    SameKeysBelow(es, fs, EntryId, next);
  }

  lemma RulesRewritten(rs: seq<MappingRule>, qs: seq<MappingRule>, next: int)
    requires RulesValid(rs, next)
    requires |qs| == |rs|
    requires forall k :: 0 <= k < |rs| ==> qs[k].id == rs[k].id
    ensures RulesValid(qs, next)
  {
    assert SameKeys(rs, qs, RuleId);
    SameKeysDistinct(rs, qs, RuleId);
    SameKeysBelow(rs, qs, RuleId, next);
  }

  /** Looks a row up by primary key. */
  function EntryWithId(id: int): ImportedEntry -> bool { (e: ImportedEntry) => e.id == id }
  function RuleWithId(id: int): MappingRule -> bool { (r: MappingRule) => r.id == id }
  function SourceWithId(id: int): ImportSource -> bool { (s: ImportSource) => s.id == id }
  function SubmissionOfEntry(entryId: int): SubmittedEntry -> bool { (s: SubmittedEntry) => s.entryId == entryId }
  function TaskWithId(id: int): TimelogTask -> bool { (t: TimelogTask) => t.id == id }

  /** The type of the import source `sourceId`, when that source exists. */
  function SourceTypeOf(sources: seq<ImportSource>, sourceId: int): (r: Option<SourceType>)
    ensures r.None? <==> forall k :: 0 <= k < |sources| ==> sources[k].id != sourceId
    ensures r.Some? ==> exists k :: 0 <= k < |sources| && sources[k].id == sourceId && sources[k].sourceType == r.value
  {
    match FindIndex(sources, SourceWithId(sourceId))
    case None => None
    case Some(k) => Some(sources[k].sourceType)
  }

  /** The external ids already stored for the source. */
  function StoredIds(entries: seq<ImportedEntry>, sourceId: int): set<string> {
    set k | 0 <= k < |entries| && entries[k].sourceId == sourceId :: entries[k].externalId
  }

  /** Appending entries of one source that take the next keys in turn and
      carry external ids new for that source, and distinct among themselves,
      keeps the entries table valid. */
  lemma AppendKeepsEntriesValid(entries: seq<ImportedEntry>, added: seq<ImportedEntry>, sourceId: int, next: int)
    requires EntriesValid(entries, next)
    requires forall k :: 0 <= k < |added| ==> added[k].id == next + k && added[k].sourceId == sourceId
    requires forall k :: 0 <= k < |added| ==> added[k].externalId !in StoredIds(entries, sourceId)
    requires Distinct(added, EntryKey)
    ensures EntriesValid(entries + added, next + |added|)
  {
    var all := entries + added;
    forall i, j | 0 <= i < |entries| && 0 <= j < |added| ensures EntryKey(entries[i]) != EntryKey(added[j]) {
      if entries[i].sourceId == sourceId {
        assert entries[i].externalId in StoredIds(entries, sourceId);
      }
    }
    assert Distinct(added, EntryId);
    forall i, j | 0 <= i < |entries| && 0 <= j < |added| ensures EntryId(entries[i]) != EntryId(added[j]) {
      assert entries[i].id < next;
    }
    DistinctConcat(entries, added, EntryKey);
    DistinctConcat(entries, added, EntryId);
  }

  /** `source.LastPolledAt = now` on the source `sourceId`, when it exists. */
  function MarkPolled(sources: seq<ImportSource>, sourceId: int, now: int): (r: seq<ImportSource>)
    ensures |r| == |sources|
    ensures forall k :: 0 <= k < |r| ==> r[k].id == sources[k].id
    ensures forall k :: 0 <= k < |r| ==>
      r[k] == if sources[k].id == sourceId && (forall j :: 0 <= j < k ==> sources[j].id != sourceId)
              then sources[k].(lastPolledAt := Some(now)) else sources[k]
  {
    match FindIndex(sources, SourceWithId(sourceId))
    case None => sources
    case Some(i) => sources[i := sources[i].(lastPolledAt := Some(now))]
  }

  /** Stamping a source keeps the sources table valid. */
  lemma MarkPolledKeepsValid(sources: seq<ImportSource>, sourceId: int, now: int, next: int)
    requires SourcesValid(sources, next)
    ensures SourcesValid(MarkPolled(sources, sourceId, now), next)
  {
    var r := MarkPolled(sources, sourceId, now);
    assert SameKeys(sources, r, SourceId);
    SameKeysDistinct(sources, r, SourceId);
    SameKeysBelow(sources, r, SourceId, next);
  }

  class Db {
    var sources: seq<ImportSource>
    var entries: seq<ImportedEntry>
    var rules: seq<MappingRule>
    var submissions: seq<SubmittedEntry>
    var projects: seq<TimelogProject>
    var tasks: seq<TimelogTask>
    /** The next primary key the database hands out (one counter for all
        tables, so keys are fresh in every table). */
    var nextId: int

    ghost predicate Valid()
      reads this
    {
      && 1 <= nextId
      && SourcesValid(sources, nextId)
      && EntriesValid(entries, nextId)
      && RulesValid(rules, nextId)
      && SubmissionsValid(submissions, nextId)
      && ProjectsValid(projects, nextId)
      && TasksValid(tasks, nextId)
    }

    /** An empty database. */
    constructor ()
      ensures Valid()
      ensures sources == [] && entries == [] && rules == [] && submissions == []
      ensures projects == [] && tasks == [] && nextId == 1
    {
      sources, entries, rules, submissions := [], [], [], [];
      projects, tasks, nextId := [], [], 1;
    }
  }
}
