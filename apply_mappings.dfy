/** Bulk classification: running the rule engine over the Pending entries
    and marking the matched ones Mapped in place, and the dry run and
    single-rule variants. */
module ApplyMappings {
  import opened Wrappers
  import opened Text
  import opened Seqs
  import opened Domain
  import opened Store
  import opened MappingResults
  import opened MappingEngine

  /** `LoadRulesAsync`: the enabled rules in stable ascending priority order. */
  function LoadRules(rules: seq<MappingRule>): (r: seq<MappingRule>)
    ensures forall k :: 0 <= k < |r| ==> r[k].isEnabled
    ensures SortedBy(r, Priority)
    ensures multiset(r) == multiset(Filter(rules, IsEnabled))
  {
    var enabled := Filter(rules, IsEnabled);
    PermutationKeeps(enabled, SortBy(enabled, Priority), IsEnabled);
    SortBy(enabled, Priority)
  }

  /** Marks an entry Mapped to a rule, its project and its (possibly absent)
      task. */
  function MapWith(e: ImportedEntry, rule: MappingRule): (m: ImportedEntry)
    ensures m.status == Mapped && m.mappingRuleId == Some(rule.id)
    ensures m.projectId == Some(rule.projectId) && m.taskId == rule.taskId
    ensures m == e.(status := m.status, mappingRuleId := m.mappingRuleId, projectId := m.projectId, taskId := m.taskId)
  {
    e.(status := Mapped, mappingRuleId := Some(rule.id), projectId := Some(rule.projectId), taskId := rule.taskId)
  }

  /** One step of a classification loop: a Pending entry for which a rule is
      chosen is mapped to it; every other entry is left as it is. */
  function Step(e: ImportedEntry, choose: ImportedEntry -> Option<MappingRule>): (r: ImportedEntry)
    ensures e.status != Pending ==> r == e
    ensures EntryKey(r) == EntryKey(e) && r.id == e.id
  {
    if e.status == Pending && choose(e).Some? then MapWith(e, choose(e).value) else e
  }

  /** How many entries went from Pending to Mapped. */
  function NewlyMapped(before: seq<ImportedEntry>, after: seq<ImportedEntry>): (n: nat)
    requires |before| == |after|
    ensures n <= |before|
  {
    if |before| == 0 then 0
    else
      var i := |before| - 1;
      NewlyMapped(before[..i], after[..i])
        + if before[i].status == Pending && after[i].status == Mapped then 1 else 0
  }

  /** Counting one more position adds that position's change alone. */
  lemma NewlyMappedStep(before: seq<ImportedEntry>, after: seq<ImportedEntry>, i: nat)
    requires |before| == |after| && i < |before|
    ensures NewlyMapped(before[..i + 1], after[..i + 1]) == NewlyMapped(before[..i], after[..i])
      + (if before[i].status == Pending && after[i].status == Mapped then 1 else 0)
  {
    assert before[..i + 1][..i] == before[..i];
    assert after[..i + 1][..i] == after[..i];
  }

  lemma {:induction false} NoneNewlyMapped(es: seq<ImportedEntry>)
    ensures NewlyMapped(es, es) == 0
  {
    if |es| > 0 {
      NoneNewlyMapped(es[..|es| - 1]);
    }
  }

  /** The `foreach` over the entries, updating each in place and counting
      those it maps. */
  method MapPending(db: Db, choose: ImportedEntry -> Option<MappingRule>) returns (mapped: nat)
    requires db.Valid()
    modifies db`entries
    ensures db.Valid()
    ensures |db.entries| == |old(db.entries)|
    ensures forall k :: 0 <= k < |db.entries| ==> db.entries[k] == Step(old(db.entries)[k], choose)
    ensures mapped == NewlyMapped(old(db.entries), db.entries)
  {
    ghost var before := db.entries;
    var i := 0;
    mapped := 0;
    while i < |db.entries|
      invariant 0 <= i <= |db.entries| == |before|
      invariant forall k :: 0 <= k < i ==> db.entries[k] == Step(before[k], choose)
      invariant forall k :: i <= k < |db.entries| ==> db.entries[k] == before[k]
      invariant mapped == NewlyMapped(before[..i], db.entries[..i])
    {
      var e := db.entries[i];
      ghost var prefix := db.entries[..i];
      if e.status == Pending {
        var rule := choose(e);
        if rule.Some? {
          db.entries := db.entries[i := MapWith(e, rule.value)];
          mapped := mapped + 1;
        }
      }
      assert db.entries[..i] == prefix;
      NewlyMappedStep(before, db.entries, i);
      i := i + 1;
    }
    assert before[..i] == before && db.entries[..i] == db.entries;
    EntriesRewritten(before, db.entries, db.nextId);
  }

  /** The rule the engine chooses for an entry, its source loaded from the
      sources table. */
  function EvaluateChooser(loaded: seq<MappingRule>, sources: seq<ImportSource>, regex: RegexOracle): ImportedEntry -> Option<MappingRule> {
    (e: ImportedEntry) =>
      var result := Evaluate(loaded, e, SourceTypeOf(sources, e.sourceId), regex);
      if result.Matched? then Some(result.rule) else None
  }

  /** What classification does to one entry of the table. */
  function Classify(e: ImportedEntry, rules: seq<MappingRule>, sources: seq<ImportSource>, regex: RegexOracle): ImportedEntry {
    Step(e, EvaluateChooser(LoadRules(rules), sources, regex))
  }

  /** A Pending entry is mapped exactly when some enabled rule is in scope
      for its source and matches it; it is then mapped to the reference
      choice of the rule engine, and otherwise left identical. */
  lemma ClassifyOutcome(e: ImportedEntry, rules: seq<MappingRule>, sources: seq<ImportSource>, regex: RegexOracle)
    requires e.status == Pending
    ensures var r := Classify(e, rules, sources, regex);
            var ok := Candidate(e, SourceTypeOf(sources, e.sourceId), regex);
            && (r.status == Mapped <==> exists k :: 0 <= k < |rules| && ok(rules[k]))
            && (r.status != Mapped ==> r == e)
            && (r.status == Mapped ==> exists i :: Chosen(rules, ok, i) && r == MapWith(e, rules[i]))
  {
    var source := SourceTypeOf(sources, e.sourceId);
    EvaluateLoaded(rules, e, source, regex);
    EvaluateSpec(rules, e, source, regex);
  }

  /** `ApplyAllPendingAsync`: every Pending entry is classified in place;
      entries in any other status are untouched, and the result counts the
      entries that became Mapped. With no enabled rule nothing changes. */
  method ApplyAllPending(db: Db, regex: RegexOracle) returns (mapped: nat)
    requires db.Valid()
    modifies db`entries
    ensures db.Valid()
    ensures |db.entries| == |old(db.entries)|
    ensures forall k :: 0 <= k < |db.entries| ==> db.entries[k] == Classify(old(db.entries)[k], db.rules, db.sources, regex)
    ensures mapped == NewlyMapped(old(db.entries), db.entries)
    ensures LoadRules(db.rules) == [] ==> mapped == 0 && db.entries == old(db.entries)
  {
    var loaded := LoadRules(db.rules);
    if |loaded| == 0 {
      forall k | 0 <= k < |db.entries|
        ensures db.entries[k] == Classify(db.entries[k], db.rules, db.sources, regex)
      {
        assert FindIndex(SortBy(Filter(loaded, IsEnabled), Priority), Applies(db.entries[k], SourceTypeOf(db.sources, db.entries[k].sourceId), regex)).None?;
      }
      NoneNewlyMapped(db.entries);
      return 0;
    }
    mapped := MapPending(db, EvaluateChooser(loaded, db.sources, regex));
  }

  /** The single rule's test, for the dry run and `ApplyRuleAsync`. */
  function RuleChooser(rule: MappingRule, regex: RegexOracle): ImportedEntry -> Option<MappingRule> {
    (e: ImportedEntry) => if Matches(rule, e, regex) then Some(rule) else None
  }

  function PendingMatching(rule: MappingRule, regex: RegexOracle): ImportedEntry -> bool {
    (e: ImportedEntry) => e.status == Pending && Matches(rule, e, regex)
  }

  function RuleNotFound(ruleId: int): string {
    "MappingRule " + IntToString(ruleId) + " not found."
  }

  /** `TestRuleAsync`: the Pending entries the rule matches, in table order,
      ignoring whether the rule is enabled and its source scope; an unknown
      rule id is an error. */
  function TestRule(rules: seq<MappingRule>, entries: seq<ImportedEntry>, ruleId: int, regex: RegexOracle): (r: Result<seq<ImportedEntry>>)
    ensures r.Err? <==> forall k :: 0 <= k < |rules| ==> rules[k].id != ruleId
    ensures r.Err? ==> r.error == RuleNotFound(ruleId)
    ensures r.Ok? ==>
      exists i :: && 0 <= i < |rules| && rules[i].id == ruleId
                  && (forall k :: 0 <= k < |r.value| ==> r.value[k].status == Pending && Matches(rules[i], r.value[k], regex))
                  && (forall k :: 0 <= k < |entries| && entries[k].status == Pending && Matches(rules[i], entries[k], regex) ==> entries[k] in r.value)
    ensures r.Ok? ==> multiset(r.value) <= multiset(entries)
  {
    match FindIndex(rules, RuleWithId(ruleId))
    case None => Err(RuleNotFound(ruleId))
    case Some(i) =>
      var found := Filter(entries, PendingMatching(rules[i], regex));
      assert forall k :: 0 <= k < |found| ==> PendingMatching(rules[i], regex)(found[k]);
      Ok(found)
  }

  /** `ApplyRuleAsync`: maps every Pending entry the rule matches to that
      rule's project and task, whether or not the rule is enabled or scoped;
      an unknown rule id is an error that changes nothing. */
  method ApplyRule(db: Db, ruleId: int, regex: RegexOracle) returns (r: Result<nat>)
    requires db.Valid()
    modifies db`entries
    ensures db.Valid()
    ensures r.Err? <==> forall k :: 0 <= k < |db.rules| ==> db.rules[k].id != ruleId
    ensures r.Err? ==> r.error == RuleNotFound(ruleId) && db.entries == old(db.entries)
    ensures r.Ok? ==>
      exists i :: && 0 <= i < |db.rules| && db.rules[i].id == ruleId
                  && |db.entries| == |old(db.entries)|
                  && (forall k :: 0 <= k < |db.entries| ==> db.entries[k] == Step(old(db.entries)[k], RuleChooser(db.rules[i], regex)))
                  && r.value == NewlyMapped(old(db.entries), db.entries)
  {
    var i := FindIndex(db.rules, RuleWithId(ruleId));
    if i.None? {
      return Err(RuleNotFound(ruleId));
    }
    var mapped := MapPending(db, RuleChooser(db.rules[i.value], regex));
    return Ok(mapped);
  }
}
