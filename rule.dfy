/**
 * The table of generic game rules (game/rule.go) and the registry that builds
 * the id-to-rule map on first use and returns the cached map afterwards.
 */
module RuleTable {
  import opened Wrappers

  /** A rule; the source's long description text is not part of this model. */
  datatype Rule = Rule(id: int, ruleNumber: string, isMajor: bool, isRankingPoint: bool)

  /** The curated rule list, in source order. */
  const Rules: seq<Rule> := [
    Rule(1, "G206", false, false),
    Rule(2, "G210", true, false),
    Rule(3, "G301", true, false),
    Rule(4, "G401", false, false),
    Rule(5, "G402", false, false),
    Rule(6, "G406", true, false),
    Rule(7, "G407", false, false),
    Rule(8, "G408", true, false),
    Rule(9, "G414", false, false),
    Rule(10, "G415", false, false),
    Rule(11, "G417", true, false),
    Rule(12, "G422", false, false),
    Rule(13, "G423", true, false),
    Rule(14, "G424", true, false),
    Rule(15, "G425", false, false),
    Rule(16, "G429", false, false),
    Rule(17, "G430", true, false),
    Rule(18, "G434", false, false)
  ]

  /** The map the GetAllRules loop builds: each rule under its id, a later rule overwriting an earlier one. */
  function RuleMapOf(rules: seq<Rule>): map<int, Rule>
    decreases |rules|
  {
    if rules == [] then map[]
    else RuleMapOf(rules[..|rules| - 1])[rules[|rules| - 1].id := rules[|rules| - 1]]
  }

  /** No two rules share an id. */
  predicate DistinctIds(rules: seq<Rule>) {
    forall i, j :: 0 <= i < j < |rules| ==> rules[i].id != rules[j].id
  }

  /** GetRuleById as a function of the table: the rule with that id, or None (nil). */
  function RuleById(id: int): Option<Rule> {
    var m := RuleMapOf(Rules);
    if id in m then Some(m[id]) else None
  }

  /** The keys of the built map are exactly the ids of the rules. */
  lemma {:induction false} RuleMapKeys(rules: seq<Rule>)
    ensures forall id :: id in RuleMapOf(rules) <==> exists i :: 0 <= i < |rules| && rules[i].id == id
    decreases |rules|
  {
    if rules != [] {
      var init := rules[..|rules| - 1];
      RuleMapKeys(init);
      forall id | id in RuleMapOf(rules) ensures exists i :: 0 <= i < |rules| && rules[i].id == id {
        if id != rules[|rules| - 1].id {
          assert id in RuleMapOf(init);
          var i :| 0 <= i < |init| && init[i].id == id;
          assert rules[i].id == id;
        }
      }
      forall id | exists i :: 0 <= i < |rules| && rules[i].id == id ensures id in RuleMapOf(rules) {
        var i :| 0 <= i < |rules| && rules[i].id == id;
        if i < |init| {
          assert init[i].id == id;
        }
      }
    }
  }

  /** With distinct ids, every rule is in the map under its own id. */
  lemma {:induction false} EveryRuleUnderItsId(rules: seq<Rule>, i: int)
    requires DistinctIds(rules) && 0 <= i < |rules|
    ensures rules[i].id in RuleMapOf(rules) && RuleMapOf(rules)[rules[i].id] == rules[i]
    decreases |rules|
  {
    var last := |rules| - 1;
    if i < last {
      var init := rules[..last];
      assert DistinctIds(init);
      EveryRuleUnderItsId(init, i);
      assert rules[i].id != rules[last].id;
    }
  }

  /** With distinct ids, the map has one entry per rule. */
  lemma {:induction false} RuleMapSize(rules: seq<Rule>)
    requires DistinctIds(rules)
    ensures |RuleMapOf(rules)| == |rules|
    decreases |rules|
  {
    if rules != [] {
      var init := rules[..|rules| - 1];
      var last := rules[|rules| - 1];
      assert DistinctIds(init);
      RuleMapSize(init);
      RuleMapKeys(init);
      assert last.id !in RuleMapOf(init);
    }
  }

  /** The ids of the table are 1 to 18 in order, so they are distinct. */
  lemma RuleIdsAreOneToEighteen()
    ensures |Rules| == 18
    ensures forall i :: 0 <= i < |Rules| ==> Rules[i].id == i + 1
    ensures DistinctIds(Rules)
  {
  }

  /**
   * The built map has 18 entries, holds every rule under its own id, answers
   * exactly the ids 1 to 18, and a lookup returns the rule carrying that id.
   */
  lemma RuleMapContents()
    ensures |RuleMapOf(Rules)| == 18
    ensures forall i :: 0 <= i < |Rules| ==> RuleById(Rules[i].id) == Some(Rules[i])
    ensures forall id :: RuleById(id).Some? <==> 1 <= id <= 18
    ensures forall id :: RuleById(id).Some? ==> RuleById(id).value.id == id
  {
    RuleIdsAreOneToEighteen();
    RuleMapSize(Rules);
    RuleMapKeys(Rules);
    forall i | 0 <= i < |Rules| ensures RuleById(Rules[i].id) == Some(Rules[i]) {
      EveryRuleUnderItsId(Rules, i);
    }
    forall id | 1 <= id <= 18 ensures RuleById(id).Some? {
      assert Rules[id - 1].id == id;
    }
    forall id | RuleById(id).Some? ensures RuleById(id).value.id == id {
      var i :| 0 <= i < |Rules| && Rules[i].id == id;
      EveryRuleUnderItsId(Rules, i);
    }
  }

  /** Ids outside the table, such as 0 and 19, find no rule. */
  lemma LookupOutsideTable()
    ensures RuleById(0) == None && RuleById(19) == None
  {
    RuleMapContents();
  }

  /** No rule in the table grants a ranking point, and the majors are rules 2, 3, 6, 8, 11, 13, 14 and 17. */
  lemma RuleFlags()
    ensures forall i :: 0 <= i < |Rules| ==> !Rules[i].isRankingPoint
    ensures forall i :: 0 <= i < |Rules| ==> (Rules[i].isMajor <==> Rules[i].id in {2, 3, 6, 8, 11, 13, 14, 17})
  {
  }

  /** The package-level ruleMap: None until GetAllRules first runs. */
  class RuleRegistry {
    var ruleMap: Option<map<int, Rule>>

    /** A built map is the map of the rule table. */
    ghost predicate Valid()
      reads this
    {
      ruleMap.Some? ==> ruleMap.value == RuleMapOf(Rules)
    }

    constructor ()
      ensures Valid() && ruleMap == None
    {
      ruleMap := None;
    }

    /** GetAllRules: builds the map with a loop on first call and caches it; later calls return the cache untouched. */
    method GetAllRules() returns (m: map<int, Rule>)
      requires Valid()
      modifies this
      ensures Valid() && ruleMap == Some(m)
      ensures m == RuleMapOf(Rules)
      ensures old(ruleMap).Some? ==> ruleMap == old(ruleMap)
    {
      if ruleMap.None? {
        var built := map[];
        for i := 0 to |Rules|
          invariant built == RuleMapOf(Rules[..i])
        {
          built := built[Rules[i].id := Rules[i]];
          assert Rules[..i + 1][..i] == Rules[..i];
        }
        assert Rules[..|Rules|] == Rules;
        ruleMap := Some(built);
      }
      m := ruleMap.value;
    }

    /** GetRuleById: a lookup in GetAllRules' map. */
    method GetRuleById(id: int) returns (rule: Option<Rule>)
      requires Valid()
      modifies this
      ensures Valid() && ruleMap == Some(RuleMapOf(Rules))
      ensures rule == RuleById(id)
    {
      var m := GetAllRules();
      rule := if id in m then Some(m[id]) else None;
    }
  }
}
