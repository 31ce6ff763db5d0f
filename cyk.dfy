/** The start of a Cocke–Younger–Kasami recogniser for the molecule
    grammar: the tokenizer that splits a molecule before each uppercase
    letter, the dense index of the nonterminals and the length-1 base layer
    of the table. The crate stops after the base layer, whose cells it only
    logs; both answers are `None`. */
module Cyk {
  import opened Common
  import opened CykGrammar

  /** `char::is_uppercase`, restricted to ASCII. */
  predicate IsUpper(c: char) {
    'A' <= c <= 'Z'
  }

  /** The concatenation of the tokens. */
  function Concat(tokens: seq<string>): string {
    if tokens == [] then [] else tokens[0] + Concat(tokens[1..])
  }

  /** `Solution::split`: reversing the string, splitting it after each
      uppercase letter and reversing back cuts it before each uppercase
      letter. A character joins the token that follows it unless that token
      starts with an uppercase letter. */
  function Split(s: string): (tokens: seq<string>)
    ensures forall i :: 0 <= i < |tokens| ==> tokens[i] != []
    ensures Concat(tokens) == s
  {
    if s == [] then []
    else
      var rest := Split(s[1..]);
      if rest != [] && !IsUpper(rest[0][0]) then [[s[0]] + rest[0]] + rest[1..]
      else [[s[0]]] + rest
  }

  /** A cut of `s` into non-empty tokens in which uppercase letters occur only
      at the start of a token and every token but the first starts with one. */
  predicate IsTokenization(s: string, tokens: seq<string>) {
    Concat(tokens) == s
    && (forall i :: 0 <= i < |tokens| ==> tokens[i] != [])
    && (forall i :: 0 < i < |tokens| ==> IsUpper(tokens[i][0]))
    && (forall i, j :: 0 <= i < |tokens| && 0 < j < |tokens[i]| ==> !IsUpper(tokens[i][j]))
  }

  /** `split` cuts exactly before the uppercase letters. */
  lemma {:induction false} SplitIsTokenization(s: string)
    ensures IsTokenization(s, Split(s))
  {
    if s != [] {
      SplitIsTokenization(s[1..]);
      var rest := Split(s[1..]);
      var tokens := Split(s);
      if rest != [] && !IsUpper(rest[0][0]) {
        forall i, j | 0 <= i < |tokens| && 0 < j < |tokens[i]| ensures !IsUpper(tokens[i][j]) {
          if i == 0 {
            assert tokens[0][j] == rest[0][j - 1];
          } else {
            assert tokens[i] == rest[i];
          }
        }
        forall i | 0 < i < |tokens| ensures IsUpper(tokens[i][0]) {
          assert tokens[i] == rest[i];
        }
      } else {
        forall i, j | 0 <= i < |tokens| && 0 < j < |tokens[i]| ensures !IsUpper(tokens[i][j]) {
          assert tokens[i] == rest[i - 1];
        }
        forall i | 0 < i < |tokens| ensures IsUpper(tokens[i][0]) {
          assert tokens[i] == rest[i - 1];
        }
      }
    }
  }

  /** A tokenization of a non-empty string, without its first character. */
  function Behead(tokens: seq<string>): seq<string>
    requires tokens != [] && tokens[0] != []
  {
    if |tokens[0]| == 1 then tokens[1..] else [tokens[0][1..]] + tokens[1..]
  }

  lemma BeheadConcat(tokens: seq<string>)
    requires tokens != [] && tokens[0] != []
    ensures Concat(tokens) == [tokens[0][0]] + Concat(Behead(tokens))
  {
    var head, rest := tokens[0], tokens[1..];
    var first, others := [head[0]], head[1..];
    assert head == first + others;
    assert Concat(tokens) == head + Concat(rest);
    if |head| > 1 {
      ConcatCons(others, rest);
      assert Behead(tokens) == [others] + rest;
      assert (first + others) + Concat(rest) == first + (others + Concat(rest));
    } else {
      assert others == [];
      assert Behead(tokens) == rest;
    }
  }

  lemma ConcatCons(token: string, rest: seq<string>)
    ensures Concat([token] + rest) == token + Concat(rest)
  {
    var tokens := [token] + rest;
    assert tokens[0] == token && tokens[1..] == rest;
  }

  lemma BeheadTokenization(s: string, tokens: seq<string>)
    requires s != [] && IsTokenization(s, tokens)
    ensures IsTokenization(s[1..], Behead(tokens))
    ensures |tokens[0]| == 1 ==> Behead(tokens) == [] || IsUpper(Behead(tokens)[0][0])
    ensures |tokens[0]| > 1 ==> !IsUpper(Behead(tokens)[0][0])
  {
    assert tokens != [];
    BeheadConcat(tokens);
    var tail := Behead(tokens);
    if |tokens[0]| == 1 {
      forall i | 0 <= i < |tail| ensures tail[i] == tokens[i + 1] {
      }
    } else {
      forall i | 0 < i < |tail| ensures tail[i] == tokens[i] {
      }
      forall j | 0 <= j < |tail[0]| ensures tail[0][j] == tokens[0][j + 1] {
      }
    }
  }

  /** There is only one such cut, so `split` is characterised by it. */
  lemma {:induction false} SplitUnique(s: string, tokens: seq<string>)
    requires IsTokenization(s, tokens)
    ensures tokens == Split(s)
  {
    if s != [] {
      assert tokens != [];
      BeheadConcat(tokens);
      BeheadTokenization(s, tokens);
      SplitUnique(s[1..], Behead(tokens));
      assert tokens[0] == [s[0]] + tokens[0][1..];
    }
  }

  lemma KnownSplitsShort()
    ensures Split("") == []
    ensures Split("e") == ["e"]
  {
  }

  lemma KnownSplitHOH()
    ensures Split("HOH") == ["H", "O", "H"]
  {
    assert "HOH"[1..] == "OH" && "OH"[1..] == "H" && "H"[1..] == [];
  }

  lemma KnownSplitCaRn()
    ensures Split("CaRn") == ["Ca", "Rn"]
  {
    var tokens := ["Ca", "Rn"];
    assert Concat(tokens) == "CaRn" by {
      assert tokens[1..] == ["Rn"] && Concat(["Rn"]) == "Rn";
    }
    SplitUnique("CaRn", tokens);
  }

  /** The sources of the rules, collected into a set. */
  function Sources(rules: seq<CnfRule>): set<string> {
    set i | 0 <= i < |rules| :: rules[i].source
  }

  /** A dense index: every name in `names` has a distinct number below the
      number of names. */
  predicate IsDenseIndex(index: map<string, nat>, names: set<string>) {
    index.Keys == names
    && (forall a :: a in index ==> index[a] < |names|)
    && (forall a, b :: a in index && b in index && a != b ==> index[a] != index[b])
  }

  /** The loop that numbers each distinct source by the size of the map so
      far. The numbers depend on the set's iteration order; their density
      and distinctness do not. */
  method IndexNonterminals(names: set<string>) returns (index: map<string, nat>)
    ensures IsDenseIndex(index, names)
  {
    index := map[];
    var rest := names;
    while rest != {}
      invariant index.Keys !! rest && index.Keys + rest == names
      invariant forall a :: a in index ==> index[a] < |index|
      invariant forall a, b :: a in index && b in index && a != b ==> index[a] != index[b]
      decreases rest
    {
      var r :| r in rest;
      index := index[r := |index|];
      rest := rest - {r};
    }
  }

  /** Among the first `n` rules, one has the single token `words[cell.0]` as
      target and a source numbered `cell.1`. */
  ghost predicate BaseCellUpTo(words: seq<string>, rules: seq<CnfRule>, index: map<string, nat>, cell: (nat, nat), n: nat)
    requires n <= |rules| && Sources(rules) <= index.Keys
  {
    cell.0 < |words|
    && exists i :: 0 <= i < n && |rules[i].target| == 1 && rules[i].target[0] == words[cell.0]
                    && index[rules[i].source] == cell.1
  }

  /** The cell P[1, s, v] of the table is marked. */
  ghost predicate IsBaseCell(words: seq<string>, rules: seq<CnfRule>, index: map<string, nat>, cell: (nat, nat))
    requires Sources(rules) <= index.Keys
  {
    BaseCellUpTo(words, rules, index, cell, |rules|)
  }

  /** The nested loops over words and rules that mark the length-1 cells,
      collected instead of logged. The index lookup cannot fail because
      every source is indexed. */
  method BaseLayer(words: seq<string>, rules: seq<CnfRule>, index: map<string, nat>) returns (cells: set<(nat, nat)>)
    requires Sources(rules) <= index.Keys
    ensures forall cell :: cell in cells <==> IsBaseCell(words, rules, index, cell)
  {
    cells := {};
    var s := 0;
    while s < |words|
      invariant 0 <= s <= |words|
      invariant forall cell :: cell in cells <==> cell.0 < s && IsBaseCell(words, rules, index, cell)
    {
      var i := 0;
      while i < |rules|
        invariant 0 <= i <= |rules|
        invariant forall cell :: cell in cells <==>
          (cell.0 < s && IsBaseCell(words, rules, index, cell)) || (cell.0 == s && BaseCellUpTo(words, rules, index, cell, i))
      {
        assert rules[i].source in Sources(rules);
        if |rules[i].target| == 1 && rules[i].target[0] == words[s] {
          cells := cells + {(s, index[rules[i].source])};
        }
        i := i + 1;
      }
      s := s + 1;
    }
  }

  class Solution {
    var input: string
    const grammar: Grammar
    var answerPart1: Option<nat>
    var answerPart2: Option<nat>

    constructor ()
      ensures input == [] && fresh(grammar) && grammar.rules == []
      ensures answerPart1 == None && answerPart2 == None
    {
      input := [];
      grammar := new Grammar();
      answerPart1 := None;
      answerPart2 := None;
    }

    /** `Solution::add_rule`: appends to the raw grammar. */
    method AddRule(rule: SimpleRule)
      modifies grammar
      ensures grammar.rules == old(grammar.rules) + [rule]
    {
      grammar.AddRule(rule);
    }

    /** `Solution::set_input`. */
    method SetInput(s: string)
      modifies this
      ensures input == s
      ensures answerPart1 == old(answerPart1) && answerPart2 == old(answerPart2)
    {
      input := s;
    }

    /** `analyse_part1`: tokenizes the input and the rules with `split`,
        converts the grammar with start symbol "e", numbers the sources and
        walks the base layer. Besides the answer, which is always `None`, it
        returns the index and the cells the code logs. */
    method AnalysePart1() returns (answer: Option<nat>, index: map<string, nat>, cells: set<(nat, nat)>)
      ensures answer == None
      ensures IsDenseIndex(index, Sources(CnfRules(grammar.rules, Split)))
      ensures forall cell :: cell in cells <==> IsBaseCell(Split(input), CnfRules(grammar.rules, Split), index, cell)
    {
      var words := Split(input);
      var cnf := grammar.ConvertToCnf("e", Split);
      var rules := cnf.Rules();
      var names := set i | 0 <= i < |rules| :: rules[i].source;
      index := IndexNonterminals(names);
      cells := BaseLayer(words, rules, index);
      answer := None;
    }

    /** `analyse_part2`: not implemented by the crate. */
    function AnalysePart2(): (answer: Option<nat>)
      ensures answer == None
    {
      None
    }

    /** `analyse`: both answers are `None`. */
    method Analyse()
      modifies this
      ensures answerPart1 == None && answerPart2 == None
      ensures input == old(input) && grammar.rules == old(grammar.rules)
    {
      var answer, index, cells := AnalysePart1();
      answerPart1 := answer;
      answerPart2 := AnalysePart2();
    }
  }
}
