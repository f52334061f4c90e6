/**
 * The grammar records of src/renderer/src/grammar.ts and the default
 * grammars it ships: an axiom and a rule list sorted by input, every
 * probability 0.
 */
module Grammars {
  import opened SortedSearch
  import opened Rules

  /** A `Grammar`: the start string and the rewriting rules. */
  datatype Grammar = Grammar(axiom: string, rules: RuleCollection)

  /** The rules shared by `defaultGrammars` and the renderer's own grammar. */
  const BranchRules: RuleCollection := [
    Rule("F", "FX[FX[+XF]]", 0.0),
    Rule("X", "F[+XZ++X-F[+ZX]][-X++F-X]", 0.0),
    Rule("Z", "[+F-X-F][++ZX]", 0.0)
  ]

  /** `defaultGrammars`: one grammar with axiom `X`. */
  const DefaultGrammars: seq<Grammar> := [Grammar("X", BranchRules)]

  /** The rules are sorted by input, `F < X < Z`, so the rule lookup may search them. */
  lemma BranchRulesSorted()
    ensures SortedByInput(BranchRules)
  {
    var keys := Project(BranchRules, InputOf);
    assert keys == ["F", "X", "Z"];
    assert Below("F", "X") && Below("X", "Z") && Below("F", "Z");
  }

  /** Every rule of the default grammars has probability 0. */
  lemma BranchRulesWeightless()
    ensures forall j :: 0 <= j < |BranchRules| ==> BranchRules[j].probability == 0.0
  {
  }

  /** With these rules a pass is deterministic: `Z` becomes the output of its one rule, without a draw. */
  lemma RewriteOfZ(random: nat -> real, first: nat)
    ensures Rewrite("Z", BranchRules, random, first) == Rewriting("[+F-X-F][++ZX]", 0)
  {
    BranchRulesSorted();
    WeightlessRewrite("Z", BranchRules, random, first);
    assert FirstWith(BranchRules, "Z") == 2;
    assert Replaced("Z", BranchRules) == Replaced([], BranchRules) + Replacement('Z', BranchRules);
  }
}
