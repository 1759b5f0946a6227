/** The rule engine: resolving a named field of an imported entry, testing
    one rule against an entry, and choosing the rule that classifies an
    entry (the first enabled rule in ascending priority order whose source
    scope fits and whose test matches). */
module MappingEngine {
  import opened Wrappers
  import opened Text
  import opened Seqs
  import opened Domain
  import opened MappingResults

  /** `Regex.IsMatch(value, pattern)` with `IgnoreCase | CultureInvariant`:
      an unanchored search for the pattern anywhere in the value. The regular
      expression engine is not part of this model. */
  type RegexOracle = (string, string) -> bool

  // ------------------------------------------------------------------
  // Field resolution
  // ------------------------------------------------------------------

  /** `JsonElementToString`: a JSON string gives its text, JSON null gives no
      value, any other kind gives its raw JSON text. */
  function JsonElementToString(v: MetaVal): (r: Option<string>)
    ensures r.None? <==> v.Null?
    ensures v.Str? ==> r == Some(v.s)
    ensures v.Raw? ==> r == Some(v.text)
  {
    match v
    case Str(s) => Some(s)
    case Null => None
    case Raw(t) => Some(t)
  }

  /** The position of the last property named exactly `key`, which is the
      one `JsonElement.TryGetProperty` returns when a name is repeated. */
  function LastNamed(bag: Bag, key: string): (r: Option<nat>)
    ensures r.Some? ==> r.value < |bag| && bag[r.value].0 == key
    ensures r.Some? ==> forall k :: r.value < k < |bag| ==> bag[k].0 != key
    ensures r.None? <==> forall k :: 0 <= k < |bag| ==> bag[k].0 != key
  {
    if |bag| == 0 then None
    else if bag[|bag| - 1].0 == key then Some(|bag| - 1)
    else LastNamed(bag[..|bag| - 1], key)
  }

  /** Tests a property's name against `key`, ignoring case. */
  function NameIgnoringCase(key: string): ((string, MetaVal)) -> bool {
    (p: (string, MetaVal)) => EqualsIgnoreCase(p.0, key)
  }

  /** `ResolveMetadataField`: the exact property first, then the first
      property whose name equals `key` ignoring case; no value when the bag
      is absent (null, blank or malformed JSON) or no name fits. */
  function ResolveMetadataField(key: string, metadata: Option<Bag>): Option<string> {
    match metadata
    case None => None
    case Some(bag) =>
      match LastNamed(bag, key)
      case Some(i) => JsonElementToString(bag[i].1)
      case None =>
        match FindIndex(bag, NameIgnoringCase(key))
        case Some(i) => JsonElementToString(bag[i].1)
        case None => None
  }

  /** An exact name wins: its value decides, even when it is JSON null and a
      differently cased property would have a value. */
  lemma MetadataExactWins(bag: Bag, key: string, i: nat)
    requires i < |bag| && bag[i].0 == key
    requires forall k :: i < k < |bag| ==> bag[k].0 != key
    ensures ResolveMetadataField(key, Some(bag)) == JsonElementToString(bag[i].1)
  {
    assert LastNamed(bag, key).Some?;
  }

  /** Without an exact name, the first name equal ignoring case decides. */
  lemma MetadataCaseInsensitiveFallback(bag: Bag, key: string, i: nat)
    requires forall k :: 0 <= k < |bag| ==> bag[k].0 != key
    requires i < |bag| && EqualsIgnoreCase(bag[i].0, key)
    requires forall k :: 0 <= k < i ==> !EqualsIgnoreCase(bag[k].0, key)
    ensures ResolveMetadataField(key, Some(bag)) == JsonElementToString(bag[i].1)
  {
    assert NameIgnoringCase(key)(bag[i]);
  }

  /** No name equal to `key` ignoring case, or no bag at all: no value. */
  lemma MetadataAbsent(metadata: Option<Bag>, key: string)
    requires metadata.Some? ==> forall k :: 0 <= k < |metadata.value| ==> !EqualsIgnoreCase(metadata.value[k].0, key)
    ensures ResolveMetadataField(key, metadata).None?
  {
    if metadata.Some? {
      var bag := metadata.value;
      assert forall k :: 0 <= k < |bag| ==> bag[k].0 != key;
      assert forall k :: 0 <= k < |bag| ==> !NameIgnoringCase(key)(bag[k]);
    }
  }

  const MetadataPrefix := "metadata."

  predicate IsMetadataName(fieldName: string) {
    StartsWithIgnoreCase(fieldName, MetadataPrefix)
  }

  /** The standard fields, looked up by their lower-cased name. */
  function StandardField(lowered: string, e: ImportedEntry): Option<string> {
    if lowered == "projectkey" then e.projectKey
    else if lowered == "issuekey" then e.issueKey
    else if lowered == "useremail" then Some(e.userEmail)
    else if lowered == "description" then e.description
    else if lowered == "activity" then e.activity
    else None
  }

  /** `ResolveField`: `metadata.<key>` (prefix in any case) looks `<key>` up
      in the metadata bag; otherwise the name selects a standard field,
      ignoring case. */
  function ResolveField(fieldName: string, e: ImportedEntry): Option<string> {
    if IsMetadataName(fieldName) then ResolveMetadataField(fieldName[|MetadataPrefix|..], e.metadata)
    else StandardField(Lower(fieldName), e)
  }

  /** The five standard field names resolve, in any letter case, to their
      fields; every other name without the metadata prefix resolves to no
      value. */
  lemma ResolveStandardFields(f: string, e: ImportedEntry)
    requires !IsMetadataName(f)
    ensures EqualsIgnoreCase(f, "ProjectKey") ==> ResolveField(f, e) == e.projectKey
    ensures EqualsIgnoreCase(f, "IssueKey") ==> ResolveField(f, e) == e.issueKey
    ensures EqualsIgnoreCase(f, "UserEmail") ==> ResolveField(f, e) == Some(e.userEmail)
    ensures EqualsIgnoreCase(f, "Description") ==> ResolveField(f, e) == e.description
    ensures EqualsIgnoreCase(f, "Activity") ==> ResolveField(f, e) == e.activity
    ensures (!EqualsIgnoreCase(f, "ProjectKey") && !EqualsIgnoreCase(f, "IssueKey")
             && !EqualsIgnoreCase(f, "UserEmail") && !EqualsIgnoreCase(f, "Description")
             && !EqualsIgnoreCase(f, "Activity")) ==> ResolveField(f, e).None?
  {
    assert Lower("ProjectKey") == "projectkey";
    assert Lower("IssueKey") == "issuekey";
    assert Lower("UserEmail") == "useremail";
    assert Lower("Description") == "description";
    assert Lower("Activity") == "activity";
  }

  /** A standard field name never has the metadata prefix, in any case, so
      it always reaches the standard lookup. */
  lemma StandardNamesAreNotMetadata(f: string)
    requires EqualsIgnoreCase(f, "ProjectKey") || EqualsIgnoreCase(f, "IssueKey")
      || EqualsIgnoreCase(f, "UserEmail") || EqualsIgnoreCase(f, "Description")
      || EqualsIgnoreCase(f, "Activity")
    ensures !IsMetadataName(f)
  {
    if EqualsIgnoreCase(f, "ProjectKey") {
      InitialBlocksPrefix(f, "ProjectKey");
    } else if EqualsIgnoreCase(f, "IssueKey") {
      InitialBlocksPrefix(f, "IssueKey");
    } else if EqualsIgnoreCase(f, "UserEmail") {
      InitialBlocksPrefix(f, "UserEmail");
    } else if EqualsIgnoreCase(f, "Description") {
      InitialBlocksPrefix(f, "Description");
    } else {
      InitialBlocksPrefix(f, "Activity");
    }
  }

  /** A name equal, ignoring case, to one whose first letter is not an `m`
      in either case, does not have the metadata prefix. */
  lemma InitialBlocksPrefix(f: string, name: string)
    requires EqualsIgnoreCase(f, name) && |name| > 0
    requires LowerChar(name[0]) != 'm'
    ensures !IsMetadataName(f)
  {
    assert Lower(f)[0] == Lower(name)[0] == LowerChar(name[0]);
    assert LowerChar(MetadataPrefix[0]) == 'm';
  }

  /** `<prefix><key>`, with the prefix `metadata.` in any letter case, looks
      `<key>` up in the entry's metadata. */
  lemma ResolveMetadataName(prefix: string, key: string, e: ImportedEntry)
    requires EqualsIgnoreCase(prefix, MetadataPrefix)
    ensures ResolveField(prefix + key, e) == ResolveMetadataField(key, e.metadata)
  {
    var f := prefix + key;
    LowerAppend(prefix, key);
    assert Lower(f)[..|MetadataPrefix|] == Lower(prefix);
    assert IsMetadataName(f);
    assert f[|MetadataPrefix|..] == key;
  }

  // ------------------------------------------------------------------
  // Matching one rule
  // ------------------------------------------------------------------

  /** `Matches`: the rule's operator applied to the resolved field value. */
  function Matches(rule: MappingRule, e: ImportedEntry, regex: RegexOracle): (r: bool)
    ensures ResolveField(rule.matchField, e).None? ==> !r
    ensures rule.matchOperator.Undefined? ==> !r
  {
    match ResolveField(rule.matchField, e)
    case None => false
    case Some(v) =>
      match rule.matchOperator
      case Equals => EqualsIgnoreCase(v, rule.matchValue)
      case Contains => ContainsIgnoreCase(v, rule.matchValue)
      case StartsWith => StartsWithIgnoreCase(v, rule.matchValue)
      case Regex => regex(v, rule.matchValue)
      case Undefined(_) => false
  }

  /** What each operator means for a resolved value `v`: equality, a window
      of `v`, or a prefix of `v`, all ignoring case, or a regular-expression
      search. */
  lemma MatchesOperators(rule: MappingRule, e: ImportedEntry, regex: RegexOracle, v: string)
    requires ResolveField(rule.matchField, e) == Some(v)
    ensures rule.matchOperator == Equals ==>
      (Matches(rule, e, regex) <==> Lower(v) == Lower(rule.matchValue))
    ensures rule.matchOperator == Contains ==>
      (Matches(rule, e, regex) <==> exists i :: OccursAt(v, rule.matchValue, i))
    ensures rule.matchOperator == StartsWith ==>
      (Matches(rule, e, regex) <==> |rule.matchValue| <= |v| && EqualsIgnoreCase(v[..|rule.matchValue|], rule.matchValue))
    ensures rule.matchOperator == Regex ==>
      (Matches(rule, e, regex) <==> regex(v, rule.matchValue))
  {
    ContainsIgnoreCaseMeans(v, rule.matchValue);
    StartsWithIgnoreCaseMeans(v, rule.matchValue);
  }

  // ------------------------------------------------------------------
  // Choosing the rule for an entry
  // ------------------------------------------------------------------

  /** `entry.ImportSource?.SourceType ?? DeriveSourceType(entry)`: the type of
      the entry's import source, and Tempo when the source is not there. */
  function EntrySourceType(source: Option<SourceType>): (t: SourceType)
    ensures source.Some? ==> t == source.value
    ensures source.None? ==> t == Tempo
  {
    source.GetOr(Tempo)
  }

  /** A rule without a source type applies to every source; a scoped rule
      only to entries of its type. */
  predicate InScope(rule: MappingRule, t: SourceType) {
    rule.sourceType.None? || rule.sourceType.value == t
  }

  /** The test of the evaluation loop for an enabled rule. */
  function Applies(e: ImportedEntry, source: Option<SourceType>, regex: RegexOracle): MappingRule -> bool {
    (rule: MappingRule) => InScope(rule, EntrySourceType(source)) && Matches(rule, e, regex)
  }

  /** A rule that could classify the entry: enabled, in scope and matching. */
  function Candidate(e: ImportedEntry, source: Option<SourceType>, regex: RegexOracle): MappingRule -> bool {
    (rule: MappingRule) => rule.isEnabled && Applies(e, source, regex)(rule)
  }

  function IsEnabled(rule: MappingRule): bool {
    rule.isEnabled
  }

  function Priority(rule: MappingRule): int {
    rule.priority
  }

  /** The early-return loop over the ordered rules. */
  function FirstApplying(ordered: seq<MappingRule>, test: MappingRule -> bool): MappingResult {
    match FindIndex(ordered, test)
    case None => Unmatched
    case Some(i) => Matched(ordered[i], ordered[i].projectId, ordered[i].taskId)
  }

  /** `Evaluate`: the enabled rules in stable ascending priority order, the
      first that applies giving the result. */
  function Evaluate(rules: seq<MappingRule>, e: ImportedEntry, source: Option<SourceType>, regex: RegexOracle): MappingResult {
    FirstApplying(SortBy(Filter(rules, IsEnabled), Priority), Applies(e, source, regex))
  }

  /** The reference choice: the candidate of least priority, the earliest
      in the list among equal priorities. */
  function Best(s: seq<MappingRule>, ok: MappingRule -> bool): Option<MappingRule> {
    if |s| == 0 then None
    else
      var b := Best(s[1..], ok);
      if ok(s[0]) && (b.None? || s[0].priority <= b.value.priority) then Some(s[0]) else b
  }

  /** Rule `i` is the one to choose: a candidate, and no candidate has a
      lower priority or the same priority earlier in the list. */
  predicate Chosen(s: seq<MappingRule>, ok: MappingRule -> bool, i: int) {
    0 <= i < |s| && ok(s[i])
    && forall j :: 0 <= j < |s| && ok(s[j]) ==>
         s[i].priority < s[j].priority || (s[i].priority == s[j].priority && i <= j)
  }

  lemma {:induction false} BestSpec(s: seq<MappingRule>, ok: MappingRule -> bool)
    ensures Best(s, ok).None? <==> forall k :: 0 <= k < |s| ==> !ok(s[k])
    ensures Best(s, ok).Some? ==> exists i :: Chosen(s, ok, i) && s[i] == Best(s, ok).value
  {
    if |s| > 0 {
      BestSpec(s[1..], ok);
      var b := Best(s[1..], ok);
      if ok(s[0]) && (b.None? || s[0].priority <= b.value.priority) {
        if b.Some? {
          var i' :| Chosen(s[1..], ok, i') && s[1..][i'] == b.value;
          assert forall j :: 1 <= j < |s| && ok(s[j]) ==> s[0].priority <= s[j].priority by {
            forall j | 1 <= j < |s| && ok(s[j]) ensures s[0].priority <= s[j].priority {
              assert s[j] == s[1..][j - 1];
            }
          }
        }
        assert Chosen(s, ok, 0);
      } else if b.Some? {
        var i' :| Chosen(s[1..], ok, i') && s[1..][i'] == b.value;
        assert s[i' + 1] == s[1..][i'];
        forall j | 0 <= j < |s| && ok(s[j])
          ensures s[i' + 1].priority < s[j].priority || (s[i' + 1].priority == s[j].priority && i' + 1 <= j)
        {
          if j > 0 {
            assert s[j] == s[1..][j - 1];
          }
        }
        assert Chosen(s, ok, i' + 1);
      } else {
        forall k | 1 <= k < |s| ensures !ok(s[k]) {
          assert s[k] == s[1..][k - 1];
        }
      }
    }
  }

  /** The first element of an ordered sequence that passes a test. */
  function First(s: seq<MappingRule>, ok: MappingRule -> bool): Option<MappingRule> {
    match FindIndex(s, ok)
    case None => None
    case Some(i) => Some(s[i])
  }

  lemma {:induction false} FirstOfSorted(t: seq<MappingRule>, ok: MappingRule -> bool)
    requires SortedBy(t, Priority) && |t| > 0
    ensures First(t, ok).Some? ==> t[0].priority <= First(t, ok).value.priority
  {
    var i := FindIndex(t, ok);
    if i.Some? && i.value > 0 {
      assert Priority(t[0]) <= Priority(t[i.value]);
    }
  }

  lemma {:induction false} FirstTail(s: seq<MappingRule>, ok: MappingRule -> bool)
    requires |s| > 0
    ensures First(s, ok) == if ok(s[0]) then Some(s[0]) else First(s[1..], ok)
  {
  }

  /** Inserting a rule into an ordered list puts it first among the
      candidates exactly when it is a candidate and no candidate already
      there has a lower priority. */
  lemma {:induction false} FirstInsert(x: MappingRule, t: seq<MappingRule>, ok: MappingRule -> bool)
    requires SortedBy(t, Priority)
    ensures First(Insert(x, t, Priority), ok)
      == if ok(x) && (First(t, ok).None? || x.priority <= First(t, ok).value.priority) then Some(x) else First(t, ok)
  {
    var r := Insert(x, t, Priority);
    if |t| == 0 {
      FirstTail(r, ok);
    } else if x.priority <= t[0].priority {
      assert r == [x] + t;
      FirstTail(r, ok);
      assert r[1..] == t;
      FirstOfSorted(t, ok);
    } else {
      assert r == [t[0]] + Insert(x, t[1..], Priority);
      FirstTail(r, ok);
      FirstTail(t, ok);
      assert r[1..] == Insert(x, t[1..], Priority);
      assert SortedBy(t[1..], Priority);
      FirstInsert(x, t[1..], ok);
      if ok(t[0]) {
        assert First(t, ok) == Some(t[0]);
      } else {
        assert First(t, ok) == First(t[1..], ok);
      }
    }
  }

  /** Taking the first candidate after a stable sort by priority is the
      reference choice. */
  lemma {:induction false} FirstOfSortedIsBest(s: seq<MappingRule>, ok: MappingRule -> bool)
    ensures First(SortBy(s, Priority), ok) == Best(s, ok)
  {
    if |s| > 0 {
      FirstOfSortedIsBest(s[1..], ok);
      FirstInsert(s[0], SortBy(s[1..], Priority), ok);
    }
  }

  /** Dropping the disabled rules first and then testing the rest is the
      same as testing the enabled rules among all of them. */
  lemma {:induction false} BestOfEnabled(s: seq<MappingRule>, ok: MappingRule -> bool, both: MappingRule -> bool)
    requires forall r :: both(r) == (r.isEnabled && ok(r))
    ensures Best(Filter(s, IsEnabled), ok) == Best(s, both)
  {
    if |s| > 0 {
      BestOfEnabled(s[1..], ok, both);
      if s[0].isEnabled {
        assert Filter(s, IsEnabled) == [s[0]] + Filter(s[1..], IsEnabled);
        assert ([s[0]] + Filter(s[1..], IsEnabled))[1..] == Filter(s[1..], IsEnabled);
      }
    }
  }

  /** `Evaluate` chooses the reference rule among all the given rules. */
  lemma EvaluateIsBest(rules: seq<MappingRule>, e: ImportedEntry, source: Option<SourceType>, regex: RegexOracle)
    ensures var b := Best(rules, Candidate(e, source, regex));
      Evaluate(rules, e, source, regex)
        == if b.None? then Unmatched else Matched(b.value, b.value.projectId, b.value.taskId)
  {
    var ok := Applies(e, source, regex);
    FirstOfSortedIsBest(Filter(rules, IsEnabled), ok);
    BestOfEnabled(rules, ok, Candidate(e, source, regex));
  }

  /** What `Evaluate` promises: no result exactly when no enabled rule is in
      scope and matches; otherwise the result is a candidate rule of least
      priority, the earliest of the given list among those of equal
      priority, carrying that rule's project and task. Disabled rules
      therefore never classify an entry, and an empty list gives no result. */
  lemma EvaluateSpec(rules: seq<MappingRule>, e: ImportedEntry, source: Option<SourceType>, regex: RegexOracle)
    ensures Evaluate(rules, e, source, regex).Unmatched?
      <==> forall k :: 0 <= k < |rules| ==> !Candidate(e, source, regex)(rules[k])
    ensures var r := Evaluate(rules, e, source, regex);
      r.Matched? ==>
        && r.rule.isEnabled
        && InScope(r.rule, EntrySourceType(source))
        && Matches(r.rule, e, regex)
        && r.project == r.rule.projectId && r.task == r.rule.taskId
        && exists i :: Chosen(rules, Candidate(e, source, regex), i) && rules[i] == r.rule
  {
    EvaluateIsBest(rules, e, source, regex);
    BestSpec(rules, Candidate(e, source, regex));
  }

  /** Evaluating over rules already loaded as enabled and ordered by
      priority gives the same result as over the raw rules. */
  lemma EvaluateLoaded(rules: seq<MappingRule>, e: ImportedEntry, source: Option<SourceType>, regex: RegexOracle)
    ensures Evaluate(SortBy(Filter(rules, IsEnabled), Priority), e, source, regex) == Evaluate(rules, e, source, regex)
  {
    var enabled := Filter(rules, IsEnabled);
    var loaded := SortBy(enabled, Priority);
    forall k | 0 <= k < |loaded| ensures IsEnabled(loaded[k]) {
      assert loaded[k] in multiset(enabled);
    }
    FilterAll(loaded, IsEnabled);
    SortBySorted(loaded, Priority);
  }

  // ------------------------------------------------------------------
  // Scenarios
  // ------------------------------------------------------------------

  /** Two enabled unscoped rules testing ProjectKey = "PROJ", the one of
      priority 20 listed before the one of priority 5: the priority-5 rule
      classifies an entry whose project key is "PROJ". */
  lemma PriorityScenario(e: ImportedEntry, source: Option<SourceType>, regex: RegexOracle)
    requires e.projectKey == Some("PROJ")
    ensures var low := MappingRule(2, "Low priority", None, "ProjectKey", Equals, "PROJ", 2, None, 20, true, 0);
            var high := MappingRule(1, "High priority", None, "ProjectKey", Equals, "PROJ", 1, None, 5, true, 0);
            Evaluate([low, high], e, source, regex) == Matched(high, 1, None)
  {
    var low := MappingRule(2, "Low priority", None, "ProjectKey", Equals, "PROJ", 2, None, 20, true, 0);
    var high := MappingRule(1, "High priority", None, "ProjectKey", Equals, "PROJ", 1, None, 5, true, 0);
    var rules := [low, high];
    ProjectKeyRuleApplies(high, e, source, regex);
    EvaluateSpec(rules, e, source, regex);
    var r := Evaluate(rules, e, source, regex);
    var i :| Chosen(rules, Candidate(e, source, regex), i) && rules[i] == r.rule;
    assert i == 1;
  }

  /** An enabled unscoped rule testing ProjectKey = "PROJ" is a candidate
      for an entry whose project key is "PROJ". */
  lemma ProjectKeyRuleApplies(rule: MappingRule, e: ImportedEntry, source: Option<SourceType>, regex: RegexOracle)
    requires e.projectKey == Some("PROJ")
    requires rule.sourceType.None? && rule.matchField == "ProjectKey" && rule.matchOperator == Equals
    requires rule.matchValue == "PROJ" && rule.isEnabled
    ensures Candidate(e, source, regex)(rule)
  {
    assert EqualsIgnoreCase("ProjectKey", "ProjectKey");
    StandardNamesAreNotMetadata("ProjectKey");
    ResolveStandardFields("ProjectKey", e);
    assert ResolveField("ProjectKey", e) == Some("PROJ");
    assert Matches(rule, e, regex);
    assert InScope(rule, EntrySourceType(source));
    assert Applies(e, source, regex)(rule);
  }

  /** In the bag `{"customfield_10200":"Value"}` the key
      `CUSTOMFIELD_10200` has no exact match and falls back to the
      property whose name differs only in case. */
  lemma CustomFieldFallback()
    ensures ResolveMetadataField("CUSTOMFIELD_10200", Some([("customfield_10200", Str("Value"))])) == Some("Value")
  {
    var bag := [("customfield_10200", Str("Value"))];
    LowerIsIdentity("customfield_10200");
    assert Lower("CUSTOMFIELD_10200") == "customfield_10200";
    assert bag[0].0 != "CUSTOMFIELD_10200";
    MetadataCaseInsensitiveFallback(bag, "CUSTOMFIELD_10200", 0);
  }

  /** `metadata.CUSTOMFIELD_10200` resolves, through the case-insensitive
      fallback, to the value of the property named `customfield_10200`. */
  lemma MetadataKeyCaseLookup(e: ImportedEntry)
    requires e.metadata == Some([("customfield_10200", Str("Value"))])
    ensures ResolveField("metadata.CUSTOMFIELD_10200", e) == Some("Value")
  {
    assert "metadata.CUSTOMFIELD_10200" == MetadataPrefix + "CUSTOMFIELD_10200";
    ResolveMetadataName(MetadataPrefix, "CUSTOMFIELD_10200", e);
    CustomFieldFallback();
  }

  lemma ValueIgnoringCase()
    ensures EqualsIgnoreCase("Value", "value")
  {
    assert Lower("Value") == "value" == Lower("value");
  }

  /** A rule testing `metadata.CUSTOMFIELD_10200` Equals "value" matches an
      entry whose metadata is `{"customfield_10200":"Value"}`. */
  lemma MetadataKeyCaseScenario(rule: MappingRule, e: ImportedEntry, regex: RegexOracle)
    requires rule.matchField == "metadata.CUSTOMFIELD_10200"
    requires rule.matchOperator == Equals && rule.matchValue == "value"
    requires e.metadata == Some([("customfield_10200", Str("Value"))])
    ensures Matches(rule, e, regex)
  {
    MetadataKeyCaseLookup(e);
    ValueIgnoringCase();
    assert ResolveField(rule.matchField, e) == Some("Value");
  }
}
