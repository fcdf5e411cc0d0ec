/** The context the rule resource attaches to a page of rules: for every rule
    on the page, the pipelines that use it, found through one grouping of
    pipelines by rule title. */
module RuleUsage {
  import opened Wrappers

  datatype RuleDao = RuleDao(id: string, title: string)

  /** The stored pipeline; only the parts the context uses are modelled. */
  datatype PipelineDao = PipelineDao(id: string, title: string)

  /** The compact pipeline reference the response carries. */
  datatype PipelineCompactSource = PipelineCompactSource(id: string, title: string)

  /** The titles of the rules on the page. */
  function Titles(rules: seq<RuleDao>): (ts: set<string>)
    ensures forall t :: t in ts <==> exists i :: 0 <= i < |rules| && rules[i].title == t
  {
    set i | 0 <= i < |rules| :: rules[i].title
  }

  function Compact(ps: seq<PipelineDao>): (cs: seq<PipelineCompactSource>)
    ensures |cs| == |ps|
    ensures forall i :: 0 <= i < |ps| ==> cs[i] == PipelineCompactSource(ps[i].id, ps[i].title)
  {
    seq(|ps|, i requires 0 <= i < |ps| => PipelineCompactSource(ps[i].id, ps[i].title))
  }

  /** The pipelines using a rule title according to the grouping; a title
      the grouping has no entry for is used by none. */
  function UsersOf(grouping: map<string, seq<PipelineDao>>, title: string): seq<PipelineCompactSource>
  {
    Compact(if title in grouping then grouping[title] else [])
  }

  /** The ids of the rules on the page. */
  function Ids(rules: seq<RuleDao>): set<string>
  {
    set i | 0 <= i < |rules| :: rules[i].id
  }

  /** The ids of a page are those of all but its last rule, plus the last. */
  lemma IdsSnoc(rules: seq<RuleDao>)
    requires rules != []
    ensures Ids(rules) == Ids(rules[..|rules| - 1]) + {rules[|rules| - 1].id}
  {
    var init := rules[..|rules| - 1];
    forall id | id in Ids(rules) ensures id in Ids(init) + {rules[|rules| - 1].id} {
      var i :| 0 <= i < |rules| && rules[i].id == id;
      if i < |rules| - 1 {
        assert init[i] == rules[i];
      }
    }
    forall id | id in Ids(init) ensures id in Ids(rules) {
      var i :| 0 <= i < |init| && init[i].id == id;
      assert rules[i] == init[i];
    }
  }

  /** Rule id to using pipelines, one entry per rule in page order. The map
      is keyed by rule id, never by title: its keys are exactly the ids of
      the rules on the page. */
  function UsageByRuleId(rules: seq<RuleDao>, grouping: map<string, seq<PipelineDao>>)
    : (u: map<string, seq<PipelineCompactSource>>)
    ensures u.Keys == Ids(rules)
  {
    if rules == [] then map[]
    else
      var init, last := rules[..|rules| - 1], rules[|rules| - 1];
      IdsSnoc(rules);
      UsageByRuleId(init, grouping)[last.id := UsersOf(grouping, last.title)]
  }

  /** `prepareContextForPaginatedResponse`: `groupByRuleName` stands for the
      pipeline service's grouping of all pipelines by the rule titles they
      use; it is queried once, with the set of all titles on the page. */
  function PrepareContext(rules: seq<RuleDao>,
                          groupByRuleName: set<string> -> map<string, seq<PipelineDao>>)
    : map<string, map<string, seq<PipelineCompactSource>>>
  {
    map["used_in_pipelines" := UsageByRuleId(rules, groupByRuleName(Titles(rules)))]
  }

  predicate DistinctIds(rules: seq<RuleDao>) {
    forall i, j :: 0 <= i < j < |rules| ==> rules[i].id != rules[j].id
  }

  /** With distinct ids, the last rule's id is new to the map of the others. */
  lemma LastIdFresh(rules: seq<RuleDao>, grouping: map<string, seq<PipelineDao>>)
    requires rules != [] && DistinctIds(rules)
    ensures DistinctIds(rules[..|rules| - 1])
    ensures rules[|rules| - 1].id !in UsageByRuleId(rules[..|rules| - 1], grouping)
  {
    var init := rules[..|rules| - 1];
    forall id | id in Ids(init) ensures id != rules[|rules| - 1].id {
      var i :| 0 <= i < |init| && init[i].id == id;
      assert init[i] == rules[i];
    }
  }

  /** With distinct ids there is exactly one entry per rule. */
  lemma {:induction false} UsageSize(rules: seq<RuleDao>, grouping: map<string, seq<PipelineDao>>)
    requires DistinctIds(rules)
    ensures |UsageByRuleId(rules, grouping)| == |rules|
  {
    if rules != [] {
      LastIdFresh(rules, grouping);
      UsageSize(rules[..|rules| - 1], grouping);
    }
  }

  /** With distinct ids, every rule maps to the pipelines grouped under its
      title, in the grouping's order. */
  lemma {:induction false} UsageEntries(rules: seq<RuleDao>, grouping: map<string, seq<PipelineDao>>)
    requires DistinctIds(rules)
    ensures forall i :: 0 <= i < |rules| ==>
              UsageByRuleId(rules, grouping)[rules[i].id] == UsersOf(grouping, rules[i].title)
  {
    if rules != [] {
      var init, last := rules[..|rules| - 1], rules[|rules| - 1];
      LastIdFresh(rules, grouping);
      UsageEntries(init, grouping);
      forall i | 0 <= i < |rules| - 1
        ensures UsageByRuleId(rules, grouping)[rules[i].id] == UsersOf(grouping, rules[i].title)
      {
        assert rules[i] == init[i];
      }
    }
  }

  /** An empty page gives an empty usage map. */
  lemma EmptyPage(groupByRuleName: set<string> -> map<string, seq<PipelineDao>>)
    ensures PrepareContext([], groupByRuleName) == map["used_in_pipelines" := map[]]
  {
  }

  /** A rule whose title the grouping does not list, or lists with no
      pipelines, maps to an empty list; a pipeline grouped under several
      titles appears under each of the rules with those titles. */
  lemma RuleUsage(rules: seq<RuleDao>, groupByRuleName: set<string> -> map<string, seq<PipelineDao>>,
                  i: nat, p: PipelineDao)
    requires DistinctIds(rules) && i < |rules|
    ensures var g := groupByRuleName(Titles(rules));
      var u := PrepareContext(rules, groupByRuleName)["used_in_pipelines"];
      && rules[i].id in u && u.Keys == Ids(rules)
      && (rules[i].title !in g || g[rules[i].title] == [] ==> u[rules[i].id] == [])
      && (rules[i].title in g && p in g[rules[i].title] ==>
            PipelineCompactSource(p.id, p.title) in u[rules[i].id])
  {
    var g := groupByRuleName(Titles(rules));
    UsageEntries(rules, g);
    if rules[i].title in g && p in g[rules[i].title] {
      var k :| 0 <= k < |g[rules[i].title]| && g[rules[i].title][k] == p;
      assert UsersOf(g, rules[i].title)[k] == PipelineCompactSource(p.id, p.title);
    }
  }
}
