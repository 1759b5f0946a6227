/** Administration of the mapping rules: listing in priority order,
    create, update, delete, enable/disable, moving a rule one place up or
    down the priority order, and the dry run over Pending and Failed
    entries. */
module MappingRules {
  import opened Wrappers
  import opened Text
  import opened Seqs
  import opened Domain
  import opened Store
  import opened MappingEngine

  /** `CreateMappingRuleRequest`. */
  datatype RuleRequest = RuleRequest(
    name: string,
    sourceType: Option<SourceType>,
    matchField: string,
    matchOperator: MatchOperator,
    matchValue: string,
    projectId: int,
    taskId: Option<int>,
    priority: int)

  /** The rule carries every field of the request. */
  predicate Carries(r: MappingRule, req: RuleRequest) {
    && r.name == req.name && r.sourceType == req.sourceType
    && r.matchField == req.matchField && r.matchOperator == req.matchOperator
    && r.matchValue == req.matchValue && r.projectId == req.projectId
    && r.taskId == req.taskId && r.priority == req.priority
  }

  /** `GetAllAsync`: every rule, in stable ascending priority order. */
  function GetAll(rules: seq<MappingRule>): (r: seq<MappingRule>)
    ensures SortedBy(r, Priority)
    ensures multiset(r) == multiset(rules) && |r| == |rules|
  {
    SortBy(rules, Priority)
  }

  function RuleNotFound(id: int): string {
    "Rule " + IntToString(id) + " not found."
  }

  /** The rule `CreateAsync` builds: enabled, with the requested fields. */
  function NewRule(id: int, req: RuleRequest, now: int): (r: MappingRule)
    ensures Carries(r, req) && r.isEnabled
    ensures r.id == id && r.createdAt == now
  {
    MappingRule(id, req.name, req.sourceType, req.matchField, req.matchOperator,
                req.matchValue, req.projectId, req.taskId, req.priority, true, now)
  }

  /** `CreateAsync`: adds an enabled rule with the requested fields and a
      fresh key. */
  method Create(db: Db, req: RuleRequest, now: int) returns (rule: MappingRule)
    requires db.Valid()
    modifies db`rules, db`nextId
    ensures db.Valid()
    ensures rule == NewRule(old(db.nextId), req, now)
    ensures db.rules == old(db.rules) + [rule]
    ensures forall k :: 0 <= k < |old(db.rules)| ==> old(db.rules)[k].id != rule.id
  {
    rule := NewRule(db.nextId, req, now);
    DistinctAppend(db.rules, rule, RuleId);
    db.rules := db.rules + [rule];
    db.nextId := db.nextId + 1;
  }

  /** The rule after `UpdateAsync`: the requested fields, with its key,
      enabled flag and creation time kept. */
  function Updated(r: MappingRule, req: RuleRequest): (u: MappingRule)
    ensures Carries(u, req)
    ensures u.id == r.id && u.isEnabled == r.isEnabled && u.createdAt == r.createdAt
  {
    r.(name := req.name, sourceType := req.sourceType, matchField := req.matchField,
       matchOperator := req.matchOperator, matchValue := req.matchValue,
       projectId := req.projectId, taskId := req.taskId, priority := req.priority)
  }

  /** `UpdateAsync`: overwrites the requested fields of the rule `id`;
      an unknown id is an error that changes nothing. */
  method Update(db: Db, id: int, req: RuleRequest) returns (r: Outcome)
    requires db.Valid()
    modifies db`rules
    ensures db.Valid()
    ensures r.Fail? <==> forall k :: 0 <= k < |db.rules| ==> db.rules[k].id != id
    ensures r.Fail? ==> r.error == RuleNotFound(id) && db.rules == old(db.rules)
    ensures r.Pass? ==>
      exists i :: 0 <= i < |old(db.rules)| && old(db.rules)[i].id == id
                  && db.rules == old(db.rules)[i := Updated(old(db.rules)[i], req)]
  {
    var i := FindIndex(db.rules, RuleWithId(id));
    if i.None? {
      return Fail(RuleNotFound(id));
    }
    RulesRewritten(db.rules, db.rules[i.value := Updated(db.rules[i.value], req)], db.nextId);
    db.rules := db.rules[i.value := Updated(db.rules[i.value], req)];
    return Pass;
  }

  /** `SetEnabledAsync`: changes only the enabled flag of rule `id`. */
  method SetEnabled(db: Db, id: int, enabled: bool) returns (r: Outcome)
    requires db.Valid()
    modifies db`rules
    ensures db.Valid()
    ensures r.Fail? <==> forall k :: 0 <= k < |db.rules| ==> db.rules[k].id != id
    ensures r.Fail? ==> r.error == RuleNotFound(id) && db.rules == old(db.rules)
    ensures r.Pass? ==>
      exists i :: 0 <= i < |old(db.rules)| && old(db.rules)[i].id == id
                  && db.rules == old(db.rules)[i := old(db.rules)[i].(isEnabled := enabled)]
  {
    var i := FindIndex(db.rules, RuleWithId(id));
    if i.None? {
      return Fail(RuleNotFound(id));
    }
    RulesRewritten(db.rules, db.rules[i.value := db.rules[i.value].(isEnabled := enabled)], db.nextId);
    db.rules := db.rules[i.value := db.rules[i.value].(isEnabled := enabled)];
    return Pass;
  }

  /** The entries' reference to a deleted rule, set to null by the
      database (`ON DELETE SET NULL`). */
  function Unlinked(e: ImportedEntry, ruleId: int): (u: ImportedEntry)
    ensures u.mappingRuleId == if e.mappingRuleId == Some(ruleId) then None else e.mappingRuleId
    ensures u == e.(mappingRuleId := u.mappingRuleId)
  {
    if e.mappingRuleId == Some(ruleId) then e.(mappingRuleId := None) else e
  }

  /** `DeleteAsync`: removes rule `id`; entries it had mapped keep their
      status, project and task but lose the rule reference. */
  method Delete(db: Db, id: int) returns (r: Outcome)
    requires db.Valid()
    modifies db`rules, db`entries
    ensures db.Valid()
    ensures r.Fail? <==> forall k :: 0 <= k < |old(db.rules)| ==> old(db.rules)[k].id != id
    ensures r.Fail? ==> r.error == RuleNotFound(id) && db.rules == old(db.rules) && db.entries == old(db.entries)
    ensures r.Pass? ==>
      exists i :: 0 <= i < |old(db.rules)| && old(db.rules)[i].id == id
                  && db.rules == old(db.rules)[..i] + old(db.rules)[i + 1..]
    ensures r.Pass? ==> forall k :: 0 <= k < |db.rules| ==> db.rules[k].id != id
    ensures r.Pass? ==> |db.entries| == |old(db.entries)|
    ensures r.Pass? ==> forall k :: 0 <= k < |db.entries| ==> db.entries[k] == Unlinked(old(db.entries)[k], id)
  {
    var i := FindIndex(db.rules, RuleWithId(id));
    if i.None? {
      return Fail(RuleNotFound(id));
    }
    var j := i.value;
    ghost var before := db.rules;
    var rest := db.rules[..j] + db.rules[j + 1..];
    DistinctRemove(db.rules, j, RuleId);
    forall k | 0 <= k < |rest| ensures rest[k].id != id {
      var k' := if k < j then k else k + 1;
      assert rest[k] == before[k'];
      if k' != j {
        assert RuleId(before[k']) != RuleId(before[j]);
      }
    }
    db.rules := rest;
    var es := db.entries;
    var unlinked := seq(|es|, k requires 0 <= k < |es| => Unlinked(es[k], id));
    EntriesRewritten(db.entries, unlinked, db.nextId);
    db.entries := unlinked;
    return Pass;
  }

  // ------------------------------------------------------------------
  // Moving a rule in the priority order
  // ------------------------------------------------------------------

  /** Gives the rule `id` the priority `p`. */
  function SetPriority(rules: seq<MappingRule>, id: int, p: int): (r: seq<MappingRule>)
    ensures |r| == |rules|
    ensures forall k :: 0 <= k < |r| ==> r[k] == if rules[k].id == id then rules[k].(priority := p) else rules[k]
  {
    seq(|rules|, k requires 0 <= k < |rules| => if rules[k].id == id then rules[k].(priority := p) else rules[k])
  }

  /** `MovePriorityAsync` on the rules table: `id`'s position in priority
      order and the neighbour `direction` places away exchange priorities;
      with an unknown id or a neighbour outside the list nothing changes. */
  function Move(rules: seq<MappingRule>, id: int, direction: int): seq<MappingRule> {
    MoveIn(rules, GetAll(rules), id, direction)
  }

  /** The move, given the rules in priority order. */
  function MoveIn(rules: seq<MappingRule>, ordered: seq<MappingRule>, id: int, direction: int): seq<MappingRule> {
    match FindIndex(ordered, RuleWithId(id))
    case None => rules
    case Some(idx) => MoveAt(rules, ordered, idx, direction)
  }

  /** Where `FindIndex` finds the rule, the move is the one at that position. */
  lemma MoveInAt(rules: seq<MappingRule>, ordered: seq<MappingRule>, id: int, direction: int, idx: nat)
    requires idx < |ordered| && FindIndex(ordered, RuleWithId(id)) == Some(idx)
    ensures MoveIn(rules, ordered, id, direction) == MoveAt(rules, ordered, idx, direction)
  {
  }

  /** The move of the rule at position `idx` of the priority order. */
  function MoveAt(rules: seq<MappingRule>, ordered: seq<MappingRule>, idx: nat, direction: int): seq<MappingRule>
    requires idx < |ordered|
  {
    var swapIdx := idx + direction;
    if swapIdx < 0 || swapIdx >= |ordered| then rules
    else Exchange(rules, ordered[idx], ordered[swapIdx])
  }

  /** The tuple assignment of the move: rule `a` takes `b`'s priority, then
      rule `b` takes `a`'s old one. */
  function Exchange(rules: seq<MappingRule>, a: MappingRule, b: MappingRule): seq<MappingRule> {
    SetPriority(SetPriority(rules, a.id, b.priority), b.id, a.priority)
  }

  method MovePriority(db: Db, id: int, direction: int)
    requires db.Valid()
    modifies db`rules
    ensures db.Valid()
    ensures db.rules == Move(old(db.rules), id, direction)
  {
    var moved := MovedRules(db.rules, id, direction);
    RulesRewritten(db.rules, moved, db.nextId);
    db.rules := moved;
  }

  /** The steps of `MovePriorityAsync` up to its save: the rules in priority
      order, the position of the rule, the bounds check on its neighbour,
      and the tuple swap; the rows keep their keys. */
  method MovedRules(rules: seq<MappingRule>, id: int, direction: int) returns (moved: seq<MappingRule>)
    ensures moved == Move(rules, id, direction)
    ensures |moved| == |rules| && forall k :: 0 <= k < |rules| ==> moved[k].id == rules[k].id
  {
    var ordered := GetAll(rules);
    var idx := FindIndex(ordered, RuleWithId(id));
    if idx.None? {
      return rules;
    }
    MoveInAt(rules, ordered, id, direction, idx.value);
    var swapIdx := idx.value + direction;
    if swapIdx < 0 || swapIdx >= |ordered| {
      return rules;
    }
    moved := Exchange(rules, ordered[idx.value], ordered[swapIdx]);
    MoveInRange(rules, ordered, id, direction, idx.value);
  }

  function Priorities(rules: seq<MappingRule>): (ps: seq<int>)
    ensures |ps| == |rules| && forall k :: 0 <= k < |rules| ==> ps[k] == rules[k].priority
  {
    seq(|rules|, k requires 0 <= k < |rules| => rules[k].priority)
  }

  function NotId(id: int): MappingRule -> bool {
    (r: MappingRule) => r.id != id
  }

  /** With an unknown id nothing changes. */
  lemma MoveUnknownId(rules: seq<MappingRule>, id: int, direction: int)
    requires forall k :: 0 <= k < |rules| ==> rules[k].id != id
    ensures Move(rules, id, direction) == rules
  {
    var ordered := GetAll(rules);
    assert forall k :: 0 <= k < |rules| ==> NotId(id)(rules[k]);
    PermutationKeeps(rules, ordered, NotId(id));
    assert forall k :: 0 <= k < |ordered| ==> !RuleWithId(id)(ordered[k]);
  }

  /** With distinct keys, writing rule i's priority back to it is no change. */
  lemma SetOwnPriority(rules: seq<MappingRule>, i: nat)
    requires Distinct(rules, RuleId) && i < |rules|
    ensures SetPriority(rules, rules[i].id, rules[i].priority) == rules
  {
    var r := SetPriority(rules, rules[i].id, rules[i].priority);
    forall k | 0 <= k < |rules| ensures r[k] == rules[k] {
      if rules[k].id == rules[i].id {
        DistinctUnique(rules, RuleId, k, i);
      }
    }
  }

  /** Rules i and j with their priorities exchanged. */
  function Swapped(rules: seq<MappingRule>, i: nat, j: nat): (r: seq<MappingRule>)
    requires i < |rules| && j < |rules|
    ensures |r| == |rules|
  {
    rules[i := rules[i].(priority := rules[j].priority)][j := rules[j].(priority := rules[i].priority)]
  }

  /** Exchanging a rule's priority with its own is no change. */
  lemma SwappedSelf(rules: seq<MappingRule>, i: nat)
    requires i < |rules|
    ensures Swapped(rules, i, i) == rules
  {
    assert rules[i].(priority := rules[i].priority) == rules[i];
  }

  /** Exchanging two priorities keeps the multiset of priorities. */
  lemma SwappedPriorities(rules: seq<MappingRule>, i: nat, j: nat)
    requires i < |rules| && j < |rules|
    ensures multiset(Priorities(Swapped(rules, i, j))) == multiset(Priorities(rules))
  {
    var ps := Priorities(rules);
    assert Priorities(Swapped(rules, i, j)) == ps[i := ps[j]][j := ps[i]];
    SwapMultiset(ps, i, j);
  }

  /** With distinct keys, the two writes exchange the priorities of rules i
      and j and touch nothing else. */
  lemma SetPrioritiesSwap(rules: seq<MappingRule>, i: nat, j: nat)
    requires Distinct(rules, RuleId) && i < |rules| && j < |rules| && i != j
    ensures SetPriority(SetPriority(rules, rules[i].id, rules[j].priority), rules[j].id, rules[i].priority)
      == Swapped(rules, i, j)
  {
    var moved := SetPriority(SetPriority(rules, rules[i].id, rules[j].priority), rules[j].id, rules[i].priority);
    var swapped := Swapped(rules, i, j);
    assert rules[i].id != rules[j].id;
    forall k | 0 <= k < |rules| ensures moved[k] == swapped[k] {
      if rules[k].id == rules[i].id {
        DistinctUnique(rules, RuleId, k, i);
      } else if rules[k].id == rules[j].id {
        DistinctUnique(rules, RuleId, k, j);
      }
    }
  }

  lemma SwapMultiset(s: seq<int>, i: nat, j: nat)
    requires i < |s| && j < |s|
    ensures multiset(s[i := s[j]][j := s[i]]) == multiset(s)
  {
    var t := s[i := s[j]];
    assert multiset(t) == multiset(s) - multiset{s[i]} + multiset{s[j]};
  }

  /** Moving exchanges two priorities and no more. Let `idx` be the
      position of the rule `id` in priority order: when `idx + direction`
      is a position of that order, the rule and the one at that position
      swap their priority values while every other rule, and every other
      field, stays as it was; when it is outside the list, whichever the
      direction and however far, nothing changes. */
  lemma MoveSpec(rules: seq<MappingRule>, id: int, direction: int, idx: nat)
    requires Distinct(rules, RuleId)
    requires idx < |rules| && GetAll(rules)[idx].id == id
    ensures !(0 <= idx + direction < |rules|) ==> Move(rules, id, direction) == rules
    ensures 0 <= idx + direction < |rules| ==>
      exists i, j :: && 0 <= i < |rules| && 0 <= j < |rules|
                     && rules[i] == GetAll(rules)[idx] && rules[j] == GetAll(rules)[idx + direction]
                     && Move(rules, id, direction) == Swapped(rules, i, j)
  {
    OrderedPosition(rules, id, idx);
    if 0 <= idx + direction < |rules| {
      var i, j := MoveSwapsAt(rules, id, direction, idx);
    }
  }

  /** With distinct keys, the rule's position in priority order is the one
      `FindIndex` finds. */
  lemma OrderedPosition(rules: seq<MappingRule>, id: int, idx: nat)
    requires Distinct(rules, RuleId)
    requires idx < |rules| && GetAll(rules)[idx].id == id
    ensures FindIndex(GetAll(rules), RuleWithId(id)) == Some(idx)
  {
    var ordered := GetAll(rules);
    PermutationDistinct(rules, ordered, RuleId);
    forall k | 0 <= k < idx ensures !RuleWithId(id)(ordered[k]) {
      if ordered[k].id == id {
        DistinctUnique(ordered, RuleId, k, idx);
      }
    }
    FindIndexIs(ordered, RuleWithId(id), idx);
  }

  /** The table positions of the two rules a move in range swaps. */
  lemma MoveSwapsAt(rules: seq<MappingRule>, id: int, direction: int, idx: nat) returns (i: nat, j: nat)
    requires Distinct(rules, RuleId)
    requires 0 <= idx + direction < |rules| && idx < |rules|
    requires FindIndex(GetAll(rules), RuleWithId(id)) == Some(idx)
    ensures i < |rules| && j < |rules|
    ensures rules[i] == GetAll(rules)[idx] && rules[j] == GetAll(rules)[idx + direction]
    ensures Move(rules, id, direction) == Swapped(rules, i, j)
  {
    var ordered := GetAll(rules);
    var a, b := ordered[idx], ordered[idx + direction];
    MoveInRange(rules, ordered, id, direction, idx);
    assert a in multiset(ordered) && b in multiset(ordered);
    i, j := SwapRules(rules, a, b);
  }

  /** A move in range writes the two ordered rules' priorities. */
  lemma MoveInRange(rules: seq<MappingRule>, ordered: seq<MappingRule>, id: int, direction: int, idx: nat)
    requires 0 <= idx + direction < |ordered| && idx < |ordered|
    requires FindIndex(ordered, RuleWithId(id)) == Some(idx)
    ensures MoveIn(rules, ordered, id, direction) == Exchange(rules, ordered[idx], ordered[idx + direction])
  {
    MoveInAt(rules, ordered, id, direction, idx);
  }

  /** Writing each of two table rules' priority into the other is the
      swap of their positions. */
  lemma SwapRules(rules: seq<MappingRule>, a: MappingRule, b: MappingRule) returns (i: nat, j: nat)
    requires Distinct(rules, RuleId)
    requires a in multiset(rules) && b in multiset(rules)
    ensures i < |rules| && j < |rules| && rules[i] == a && rules[j] == b
    ensures Exchange(rules, a, b) == Swapped(rules, i, j)
  {
    i :| 0 <= i < |rules| && rules[i] == a;
    j :| 0 <= j < |rules| && rules[j] == b;
    if i == j {
      SetOwnPriority(rules, i);
      SwappedSelf(rules, i);
    } else {
      SetPrioritiesSwap(rules, i, j);
    }
  }

  /** Moving keeps the multiset of priorities. */
  lemma MoveKeepsPriorities(rules: seq<MappingRule>, id: int, direction: int)
    requires Distinct(rules, RuleId)
    ensures multiset(Priorities(Move(rules, id, direction))) == multiset(Priorities(rules))
  {
    match FindIndex(GetAll(rules), RuleWithId(id))
    case None =>
    case Some(idx) =>
      MoveSpec(rules, id, direction, idx);
      if 0 <= idx + direction < |rules| {
        var i, j :| 0 <= i < |rules| && 0 <= j < |rules| && Move(rules, id, direction) == Swapped(rules, i, j);
        SwappedPriorities(rules, i, j);
      }
  }

  // ------------------------------------------------------------------
  // Dry run
  // ------------------------------------------------------------------

  function OpenMatching(rule: MappingRule, regex: RegexOracle): ImportedEntry -> bool {
    (e: ImportedEntry) => (e.status == Pending || e.status == Failed) && Matches(rule, e, regex)
  }

  /** `TestRuleAsync`: the Pending or Failed entries the rule matches, in
      table order; never a Mapped, Submitted or Ignored entry; an unknown
      rule id is an error. */
  function TestRule(rules: seq<MappingRule>, entries: seq<ImportedEntry>, id: int, regex: RegexOracle): (r: Result<seq<ImportedEntry>>)
    ensures r.Err? <==> forall k :: 0 <= k < |rules| ==> rules[k].id != id
    ensures r.Err? ==> r.error == RuleNotFound(id)
    ensures r.Ok? ==>
      exists i :: && 0 <= i < |rules| && rules[i].id == id
                  && (forall k :: 0 <= k < |r.value| ==>
                        (r.value[k].status == Pending || r.value[k].status == Failed) && Matches(rules[i], r.value[k], regex))
                  && (forall k :: 0 <= k < |entries| && OpenMatching(rules[i], regex)(entries[k]) ==> entries[k] in r.value)
    ensures r.Ok? ==> multiset(r.value) <= multiset(entries)
  {
    match FindIndex(rules, RuleWithId(id))
    case None => Err(RuleNotFound(id))
    case Some(i) =>
      var found := Filter(entries, OpenMatching(rules[i], regex));
      assert forall k :: 0 <= k < |found| ==> OpenMatching(rules[i], regex)(found[k]);
      Ok(found)
  }
}
