/** The outcome of evaluating the mapping rules against one imported entry.
    The source class has a private constructor and two factories, so every
    value has one of exactly two shapes; a datatype with two constructors
    says the same. Project and task are identified by their ids. */
module MappingResults {
  import opened Wrappers
  import opened Domain

  datatype MappingResult =
    | Matched(rule: MappingRule, project: int, task: Option<int>)
    | Unmatched
  {
    predicate IsMatched() {
      Matched?
    }

    function MatchedRule(): Option<MappingRule> {
      if Matched? then Some(rule) else None
    }

    function Project(): Option<int> {
      if Matched? then Some(project) else None
    }

    function Task(): Option<int> {
      if Matched? then task else None
    }
  }

  /** `MappingResult.Matched(rule, project, task)`. */
  function MakeMatched(rule: MappingRule, project: int, task: Option<int>): (r: MappingResult)
    ensures r.IsMatched()
    ensures r.MatchedRule() == Some(rule) && r.Project() == Some(project) && r.Task() == task
  {
    Matched(rule, project, task)
  }

  /** `MappingResult.Unmatched()`. */
  function MakeUnmatched(): (r: MappingResult)
    ensures !r.IsMatched()
    ensures r.MatchedRule().None? && r.Project().None? && r.Task().None?
  {
    Unmatched
  }

  /** Every result has one of the two shapes: matched with a rule and a
      project, or unmatched with neither, nor a task. */
  lemma Shapes(r: MappingResult)
    ensures r.IsMatched() <==> r.MatchedRule().Some?
    ensures r.IsMatched() <==> r.Project().Some?
    ensures !r.IsMatched() ==> r.Task().None?
  {
  }
}
