/** The pipeline node of the processing-rule AST: an immutable value (id,
    name, stages) with one mutable slot, the execution meter, which is
    installed only for pipelines that have an id. */
module Pipelines {
  import opened Wrappers

  /** A stage of a pipeline: its number and the names of the rules it
      references; the references may be null. */
  datatype Stage = Stage(stage: int, ruleReferences: Option<seq<string>>)

  /** All rule references of the stages, in stage order; a stage without
      references contributes nothing. */
  function RuleReferences(stages: seq<Stage>): seq<string>
  {
    if stages == [] then []
    else stages[0].ruleReferences.GetOr([]) + RuleReferences(stages[1..])
  }

  /** A rule name occurs among the references exactly when some stage with
      references lists it. */
  lemma {:induction false} RuleReferencesMembers(stages: seq<Stage>, ruleName: string)
    ensures ruleName in RuleReferences(stages) <==>
              exists i :: 0 <= i < |stages| && stages[i].ruleReferences.Some?
                          && ruleName in stages[i].ruleReferences.value
  {
    if stages != [] {
      RuleReferencesMembers(stages[1..], ruleName);
      if ruleName in RuleReferences(stages[1..]) {
        var i :| 0 <= i < |stages[1..]| && stages[1..][i].ruleReferences.Some?
                 && ruleName in stages[1..][i].ruleReferences.value;
        assert stages[i + 1] == stages[1..][i];
      }
      if exists i :: 0 <= i < |stages| && stages[i].ruleReferences.Some?
                     && ruleName in stages[i].ruleReferences.value {
        var i :| 0 <= i < |stages| && stages[i].ruleReferences.Some?
                 && ruleName in stages[i].ruleReferences.value;
        if i > 0 {
          assert stages[1..][i - 1] == stages[i];
        }
      }
    }
  }

  /** A meter of the metric registry; only its count is modelled. */
  class Meter {
    var count: nat

    constructor ()
      ensures count == 0
    {
      count := 0;
    }

    method Mark()
      modifies this
      ensures count == old(count) + 1
    {
      count := count + 1;
    }
  }

  class Pipeline {
    const id: Option<string>
    const name: string
    const stages: seq<Stage>
    var executed: Meter?

    /** The built value; the meter is never part of it. */
    constructor (id: Option<string>, name: string, stages: seq<Stage>)
      ensures this.id == id && this.name == name && this.stages == stages
      ensures executed == null
    {
      this.id := id;
      this.name := name;
      this.stages := stages;
      executed := null;
    }

    /** `empty(name)`: no id and no stages. */
    static method Empty(name: string) returns (p: Pipeline)
      ensures fresh(p)
      ensures p.id == None && p.name == name && p.stages == [] && p.executed == null
    {
      p := new Pipeline(None, name, []);
    }

    /** `withId`: a new pipeline that differs only in its id; like every
        freshly built pipeline it has no meter. */
    method WithId(newId: Option<string>) returns (p: Pipeline)
      ensures fresh(p)
      ensures p.id == newId && p.name == name && p.stages == stages && p.executed == null
    {
      p := new Pipeline(newId, name, stages);
    }

    /** `containsRule`: true exactly when some stage with references lists
        the rule. */
    function ContainsRule(ruleName: string): (r: bool)
      ensures r <==> exists i :: 0 <= i < |stages| && stages[i].ruleReferences.Some?
                                 && ruleName in stages[i].ruleReferences.value
    {
      RuleReferencesMembers(stages, ruleName);
      ruleName in RuleReferences(stages)
    }

    /** `registerMetrics`: `meter` is the one the registry hands out for this
        pipeline's id; it is installed only when there is an id. */
    method RegisterMetrics(meter: Meter)
      modifies this`executed
      ensures id.Some? ==> executed == meter
      ensures id.None? ==> executed == old(executed)
    {
      if id.Some? {
        executed := meter;
      }
    }

    /** `markExecution`: marks the installed meter once; without a meter it
        does nothing. */
    method MarkExecution()
      modifies executed
      ensures executed != null ==> executed.count == old(executed.count) + 1
    {
      if executed != null {
        executed.Mark();
      }
    }

    /** `toString`: the name in single quotes, then the id (or "null") in
        parentheses. */
    function ToString(): (s: string)
      ensures s == "Pipeline '" + name + "' (" + IdText(id) + ")"
      ensures |s| == 14 + |name| + |IdText(id)|
      ensures s[10..10 + |name|] == name
    {
      "Pipeline '" + name + "' (" + IdText(id) + ")"
    }
  }

  /** How Java renders a possibly null string. */
  function IdText(id: Option<string>): string {
    if id.Some? then id.value else "null"
  }

  /** The metric guard: a pipeline without id is never metered, so marking
      its execution leaves the registry's meter alone; a pipeline with id
      counts each execution once. */
  method MeterOnlyWithId(p: Pipeline, meter: Meter) returns (marked: nat)
    requires p.executed == null && meter.count == 0
    modifies p, meter
    ensures marked == (if p.id.Some? then 1 else 0)
  {
    p.RegisterMetrics(meter);
    p.MarkExecution();
    marked := meter.count;
  }
}
