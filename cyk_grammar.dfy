/** The grammar of the CYK crate: an append-only list of raw rules
    `source => target` and its conversion into a grammar whose right-hand
    sides are token chains of length 1 or 2. Only `SimpleRule`, the one
    implementation of the `Rule` interface, is modelled. */
module CykGrammar {

  /** A raw rule; `source` and `target` are its two accessors. */
  datatype SimpleRule = SimpleRule(source: string, target: string)

  /** A rule whose right-hand side has been split into tokens. */
  datatype CnfRule = CnfRule(source: string, target: seq<string>)

  /** The length test that decides whether a raw rule survives. */
  predicate Convertible(chain: seq<string>) {
    1 <= |chain| <= 2
  }

  /** What the conversion keeps of one raw rule: its own CNF rule, or
      nothing when its split target is empty or longer than two tokens. */
  function ConvertOne(rule: SimpleRule, splitter: string -> seq<string>): seq<CnfRule> {
    var chain := splitter(rule.target);
    if Convertible(chain) then [CnfRule(rule.source, chain)] else []
  }

  /** The CNF rules `convert_to_cnf` produces from `rules`, in order. */
  function CnfRules(rules: seq<SimpleRule>, splitter: string -> seq<string>): seq<CnfRule> {
    if rules == [] then [] else ConvertOne(rules[0], splitter) + CnfRules(rules[1..], splitter)
  }

  /** Dropping a rule does not disturb the others: the conversion of a
      concatenation is the concatenation of the conversions. */
  lemma {:induction false} CnfRulesAppend(a: seq<SimpleRule>, b: seq<SimpleRule>, splitter: string -> seq<string>)
    ensures CnfRules(a + b, splitter) == CnfRules(a, splitter) + CnfRules(b, splitter)
  {
    if a == [] {
      assert a + b == b;
    } else {
      assert (a + b)[1..] == a[1..] + b;
      CnfRulesAppend(a[1..], b, splitter);
    }
  }

  /** Every converted rule has a target of one or two tokens, and comes from
      a raw rule with the same source whose split target it is. */
  lemma {:induction false} CnfRulesSound(rules: seq<SimpleRule>, splitter: string -> seq<string>, j: nat)
    requires j < |CnfRules(rules, splitter)|
    ensures Convertible(CnfRules(rules, splitter)[j].target)
    ensures exists i :: 0 <= i < |rules| && CnfRules(rules, splitter)[j] == CnfRule(rules[i].source, splitter(rules[i].target))
  {
    var head := ConvertOne(rules[0], splitter);
    if j < |head| {
      assert CnfRules(rules, splitter)[j] == head[0];
    } else {
      assert CnfRules(rules, splitter)[j] == CnfRules(rules[1..], splitter)[j - |head|];
      CnfRulesSound(rules[1..], splitter, j - |head|);
      var i :| 0 <= i < |rules[1..]| && CnfRules(rules[1..], splitter)[j - |head|] == CnfRule(rules[1..][i].source, splitter(rules[1..][i].target));
      assert rules[1..][i] == rules[i + 1];
    }
  }

  /** Every raw rule whose split target has one or two tokens is kept. */
  lemma {:induction false} CnfRulesComplete(rules: seq<SimpleRule>, splitter: string -> seq<string>, i: nat)
    requires i < |rules| && Convertible(splitter(rules[i].target))
    ensures CnfRule(rules[i].source, splitter(rules[i].target)) in CnfRules(rules, splitter)
  {
    if i > 0 {
      CnfRulesComplete(rules[1..], splitter, i - 1);
      assert rules[1..][i - 1] == rules[i];
    }
  }

  /** The conversion never produces more rules than it was given. */
  lemma {:induction false} CnfRulesLength(rules: seq<SimpleRule>, splitter: string -> seq<string>)
    ensures |CnfRules(rules, splitter)| <= |rules|
  {
    if rules != [] {
      CnfRulesLength(rules[1..], splitter);
    }
  }

  /** The converted grammar. */
  class CnfGrammar {
    var rules: seq<CnfRule>

    /** `CNFGrammar::new`. */
    constructor ()
      ensures rules == []
    {
      rules := [];
    }

    /** `CNFGrammar::add_rule`: appends a copy of `rule`. */
    method AddRule(rule: CnfRule)
      modifies this
      ensures rules == old(rules) + [rule]
    {
      rules := rules + [rule];
    }

    /** `CNFGrammar::rules`: the rules in insertion order. */
    function Rules(): seq<CnfRule>
      reads this
    {
      rules
    }
  }

  /** The raw grammar. */
  class Grammar {
    var rules: seq<SimpleRule>

    /** `Grammar::new`. */
    constructor ()
      ensures rules == []
    {
      rules := [];
    }

    /** `Grammar::add_rule`: appends a copy of `rule`, leaving the earlier
        rules as they were. */
    method AddRule(rule: SimpleRule)
      modifies this
      ensures rules == old(rules) + [rule]
    {
      rules := rules + [rule];
    }

    /** `Grammar::convert_to_cnf`: a new grammar holding, in order, the
        rules whose split target has one or two tokens. The raw grammar is
        not changed, and the start symbol plays no part in the result. */
    method ConvertToCnf(startSymbol: string, splitter: string -> seq<string>) returns (cnf: CnfGrammar)
      ensures fresh(cnf)
      ensures cnf.rules == CnfRules(rules, splitter)
    {
      cnf := new CnfGrammar();
      var i := 0;
      while i < |rules|
        invariant 0 <= i <= |rules|
        invariant cnf.rules == CnfRules(rules[..i], splitter)
      {
        CnfRulesAppend(rules[..i], [rules[i]], splitter);
        assert rules[..i + 1] == rules[..i] + [rules[i]];
        assert CnfRules([rules[i]], splitter) == ConvertOne(rules[i], splitter) + CnfRules([], splitter);
        var chain := splitter(rules[i].target);
        if 1 <= |chain| <= 2 {
          cnf.AddRule(CnfRule(rules[i].source, chain));
        }
        i := i + 1;
      }
      assert rules[..i] == rules;
    }
  }
}
