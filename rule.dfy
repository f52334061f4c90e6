/**
 * Weighted rule choice and one rewriting pass (src/renderer/src/rule.ts).
 *
 * `Math.random()` is not ambient here: `SelectRule` takes the draw `u`
 * (a value in `[0, 1)` when it comes from `Math.random`) and says whether
 * it consumed it, and `ApplyRules` reads its draws from a stream
 * `random: nat -> real`, starting at index `first`, and returns how many
 * it consumed.
 */
module Rules {
  import opened SortedSearch

  datatype Rule = Rule(input: string, output: string, probability: real)

  /** A non-empty list of rules. */
  type RuleCollection = rules: seq<Rule> | |rules| > 0 witness [Rule("", "", 0.0)]

  /** The key `keyedFindAll(['input', char], rules)` looks at. */
  function InputOf(rule: Rule): string
  {
    rule.input
  }

  // ---------------------------------------------------------------------
  // selectRule
  // ---------------------------------------------------------------------

  /** `rules.reduce((sum, item) => sum + item.probability, 0)`, folded from the left. */
  function Total(rules: seq<Rule>): real
  {
    SumTo(rules, |rules|)
  }

  /** The running sum of the first `n` probabilities. */
  function SumTo(rules: seq<Rule>, n: nat): real
    requires n <= |rules|
  {
    if n == 0 then 0.0 else SumTo(rules, n - 1) + rules[n - 1].probability
  }

  /** Two lists that agree on their first `n` rules have the same running sum there. */
  lemma {:induction false} SumToAgree(xs: seq<Rule>, ys: seq<Rule>, n: nat)
    requires n <= |xs| && n <= |ys|
    requires forall l :: 0 <= l < n ==> xs[l] == ys[l]
    ensures SumTo(xs, n) == SumTo(ys, n)
  {
    if n > 0 {
      SumToAgree(xs, ys, n - 1);
    }
  }

  /** The running sum after the rule at position `l`, that rule included. */
  function RunningSum(rules: seq<Rule>, l: int): real
    requires 0 <= l < |rules|
  {
    SumTo(rules, l + 1)
  }

  lemma {:induction false} SumConcat(xs: seq<Rule>, ys: seq<Rule>, n: nat)
    requires n <= |ys|
    ensures SumTo(xs + ys, |xs| + n) == SumTo(xs + ys, |xs|) + SumTo(ys, n)
  {
    if n > 0 {
      SumConcat(xs, ys, n - 1);
      assert (xs + ys)[|xs| + n - 1] == ys[n - 1];
    }
  }

  /** The total of a concatenation is the sum of the totals. */
  lemma TotalConcat(xs: seq<Rule>, ys: seq<Rule>)
    ensures Total(xs + ys) == Total(xs) + Total(ys)
  {
    SumToAgree(xs + ys, xs, |xs|);
    SumConcat(xs, ys, |ys|);
  }

  lemma {:induction false} SumOfWeightless(rules: seq<Rule>, n: nat)
    requires n <= |rules|
    requires forall j :: 0 <= j < |rules| ==> rules[j].probability == 0.0
    ensures SumTo(rules, n) == 0.0
  {
    if n > 0 {
      SumOfWeightless(rules, n - 1);
    }
  }

  /** Rules that all have probability 0 have total 0. */
  lemma TotalOfWeightless(rules: seq<Rule>)
    requires forall j :: 0 <= j < |rules| ==> rules[j].probability == 0.0
    ensures Total(rules) == 0.0
  {
    SumOfWeightless(rules, |rules|);
  }

  /**
   * The scan of the `for` loop from position `i`, with the running sum
   * `acc` so far: the first position at which the running sum exceeds
   * `rand`, or `|rules|` when the loop runs out.
   */
  function Scan(rules: seq<Rule>, rand: real, i: int, acc: real): (j: int)
    requires 0 <= i <= |rules|
    decreases |rules| - i
    ensures i <= j <= |rules|
  {
    if i == |rules| then i
    else if rand < acc + rules[i].probability then i
    else Scan(rules, rand, i + 1, acc + rules[i].probability)
  }

  /**
   * The index of the rule `selectRule(rules)` returns when the scaled draw
   * `Math.random() * totalProbability` is `rand`.
   */
  function SelectionIndex(rules: seq<Rule>, rand: real): (i: int)
    requires |rules| > 0
    ensures 0 <= i < |rules|
  {
    if Total(rules) > 0.0 && Scan(rules, rand, 0, 0.0) < |rules| then Scan(rules, rand, 0, 0.0) else 0
  }

  /** The rule `selectRule(rules)` returns for the scaled draw `rand`. */
  function Selection(rules: seq<Rule>, rand: real): (r: Rule)
    requires |rules| > 0
  {
    rules[SelectionIndex(rules, rand)]
  }

  /** `selectRule` on a non-empty list returns one of its rules. */
  lemma SelectionWithin(rules: seq<Rule>, rand: real)
    requires |rules| > 0
    ensures Selection(rules, rand) in rules
  {
  }

  /**
   * Started with the running sum of the rules before `i`, the scan stops
   * at the first position whose running sum exceeds `rand`, and it stops
   * inside the list whenever `rand` lies between that start and the total.
   */
  lemma {:induction false} ScanStopsAtFirstAbove(rules: seq<Rule>, rand: real, i: int, acc: real)
    requires 0 <= i <= |rules| && acc == SumTo(rules, i)
    decreases |rules| - i
    ensures var j := Scan(rules, rand, i, acc);
      && (forall l :: i <= l < j ==> RunningSum(rules, l) <= rand)
      && (j < |rules| ==> rand < RunningSum(rules, j))
      && (acc <= rand < Total(rules) ==> j < |rules|)
  {
    if i < |rules| {
      if !(rand < acc + rules[i].probability) {
        ScanStopsAtFirstAbove(rules, rand, i + 1, acc + rules[i].probability);
      }
    }
  }

  /** A draw scales to `u * total`, which stays below a positive total. */
  lemma ScaledDrawBelowTotal(u: real, total: real, rand: real)
    requires 0.0 <= u < 1.0 && total > 0.0 && rand == u * total
    ensures 0.0 <= rand < total
  {
    assert total - rand == (1.0 - u) * total;
  }

  /** When the probabilities do not sum to more than 0, `selectRule` falls back to `rules[0]`. */
  lemma SelectionFallsBack(rules: seq<Rule>, rand: real)
    requires |rules| > 0 && Total(rules) <= 0.0
    ensures Selection(rules, rand) == rules[0]
  {
  }

  /**
   * With a positive total and a scaled draw `rand` in `[0, total)` (which
   * `ScaledDrawBelowTotal` gives for every `Math.random()` value),
   * `selectRule` returns the first rule whose running sum strictly exceeds `rand`.
   */
  lemma SelectionIsFirstAbove(rules: seq<Rule>, rand: real)
    requires |rules| > 0 && 0.0 <= rand < Total(rules)
    ensures var i := SelectionIndex(rules, rand);
      && rand < RunningSum(rules, i)
      && (forall l :: 0 <= l < i ==> RunningSum(rules, l) <= rand)
  {
    ScanStopsAtFirstAbove(rules, rand, 0, 0.0);
  }

  /**
   * `selectRule` with the draw `u`; `drew` says whether it called
   * `Math.random()`, which it does exactly when the total is positive.
   */
  method SelectRule(rules: seq<Rule>, u: real) returns (rule: Rule, drew: bool)
    requires |rules| > 0
    ensures rule == Selection(rules, u * Total(rules))
    ensures drew == (Total(rules) > 0.0)
  {
    var totalProbability := Total(rules);
    if totalProbability > 0.0 {
      var rand := u * totalProbability;
      var cumulativeProbability := 0.0;
      var i := 0;
      while i < |rules|
        invariant 0 <= i <= |rules|
        invariant cumulativeProbability == SumTo(rules, i)
        invariant Scan(rules, rand, i, cumulativeProbability) == Scan(rules, rand, 0, 0.0)
      {
        cumulativeProbability := cumulativeProbability + rules[i].probability;
        if rand < cumulativeProbability {
          assert Scan(rules, rand, 0, 0.0) == i;
          assert SelectionIndex(rules, rand) == i;
          assert rand == u * Total(rules);
          return rules[i], true;
        }
        i := i + 1;
      }
      assert SelectionIndex(rules, rand) == 0;
      assert rand == u * Total(rules);
      assert Selection(rules, u * Total(rules)) == rules[0];
    } else {
      assert SelectionIndex(rules, u * Total(rules)) == 0;
    }
    return rules[0], totalProbability > 0.0;
  }

  // ---------------------------------------------------------------------
  // applyRules
  // ---------------------------------------------------------------------

  /** `keyedFindAll(['input', c], rules)`: the rules found for the character `c`. */
  function Matching(rules: seq<Rule>, c: char): seq<Rule>
  {
    Around(rules, Project(rules, InputOf), [c], DefaultComparator)
  }

  /** Text produced, and draws consumed from the random stream. */
  datatype Rewriting = Rewriting(output: string, draws: nat)

  /** One rewriting followed by another. */
  function Then(r: Rewriting, s: Rewriting): Rewriting
  {
    Rewriting(r.output + s.output, r.draws + s.draws)
  }

  /** What the character `c` becomes when the rules found for it are `matching` and the draw is `u`. */
  function Outcome(c: char, matching: seq<Rule>, u: real): Rewriting
  {
    if |matching| == 0 then Rewriting([c], 0)
    else Rewriting(Selection(matching, u * Total(matching)).output, if Total(matching) > 0.0 then 1 else 0)
  }

  lemma OutcomeOfSelection(c: char, matching: seq<Rule>, u: real, rule: Rule, drew: bool)
    requires |matching| > 0 && rule == Selection(matching, u * Total(matching))
    requires drew == (Total(matching) > 0.0)
    ensures Outcome(c, matching, u) == Rewriting(rule.output, if drew then 1 else 0)
  {
  }

  /** What the character `c` becomes when the next draw is `random(at)`. */
  function Piece(c: char, rules: seq<Rule>, random: nat -> real, at: nat): Rewriting
  {
    Outcome(c, Matching(rules, c), random(at))
  }

  /** `Piece` as a step of a `Pass`. */
  function Step(rules: seq<Rule>, random: nat -> real): (char, nat) -> Rewriting
  {
    (c: char, at: nat) => Piece(c, rules, random, at)
  }

  /**
   * A left-to-right pass that turns each character `c` into `step(c, at)`,
   * `at` being the index of the next unused draw.
   */
  function Pass(input: string, step: (char, nat) -> Rewriting, first: nat): Rewriting
  {
    if input == [] then Rewriting([], 0)
    else
      var before := Pass(input[..|input| - 1], step, first);
      Then(before, step(input[|input| - 1], first + before.draws))
  }

  /**
   * What `applyRules` returns: a pass that turns each character
   * into its `Piece`, drawing from `random(first)` on; the second component
   * counts the draws made.
   */
  function Rewrite(input: string, rules: seq<Rule>, random: nat -> real, first: nat): Rewriting
  {
    Pass(input, Step(rules, random), first)
  }

  lemma PassSnoc(input: string, i: int, step: (char, nat) -> Rewriting, first: nat)
    requires 0 <= i < |input|
    ensures var before := Pass(input[..i], step, first);
      Pass(input[..i + 1], step, first) == Then(before, step(input[i], first + before.draws))
  {
    assert input[..i + 1][..i] == input[..i];
  }

  /** Appending rewritings is associative, as string concatenation and addition are. */
  lemma ThenAssociates(x: Rewriting, y: Rewriting, z: Rewriting)
    ensures Then(Then(x, y), z) == Then(x, Then(y, z))
  {
    assert (x.output + y.output) + z.output == x.output + (y.output + z.output);
  }

  /**
   * A pass over `a + b` is the pass over `a` followed by the pass over `b`,
   * drawing on from where `a` stopped. With `Step(rules, random)` as the
   * step this is `Rewrite`: `applyRules` over `a + b` is its output over
   * `a` followed by its output over `b`.
   */
  lemma {:induction false} PassConcat(a: string, b: string, step: (char, nat) -> Rewriting, first: nat)
    ensures var left := Pass(a, step, first);
      Pass(a + b, step, first) == Then(left, Pass(b, step, first + left.draws))
  {
    var left := Pass(a, step, first);
    if b == [] {
      assert a + b == a;
    } else {
      var b', c := b[..|b| - 1], b[|b| - 1];
      PassConcat(a, b', step, first);
      var mid := Pass(b', step, first + left.draws);
      var last := step(c, first + left.draws + mid.draws);
      assert (a + b)[..|a + b| - 1] == a + b' && (a + b)[|a + b| - 1] == c;
      assert b[..|b| - 1] == b' && b[|b| - 1] == c;
      calc {
        Pass(a + b, step, first);
        Then(Pass(a + b', step, first), step(c, first + Pass(a + b', step, first).draws));
        Then(Then(left, mid), last);
        { ThenAssociates(left, mid, last); }
        Then(left, Then(mid, last));
        Then(left, Pass(b, step, first + left.draws));
      }
    }
  }

  /**
   * `step` agrees with `Piece` wherever `Piece` is mentioned. Stated with
   * that trigger, it lets `ApplyRules` reason about a pass without
   * unfolding the search for every character the pass has already seen.
   */
  ghost predicate StepsLikePiece(step: (char, nat) -> Rewriting, rules: seq<Rule>, random: nat -> real)
  {
    forall c, at {:trigger Piece(c, rules, random, at)} :: step(c, at) == Piece(c, rules, random, at)
  }

  /** A step that agrees with `Piece`: `Step` itself. */
  lemma StepLikePiece(rules: seq<Rule>, random: nat -> real) returns (step: (char, nat) -> Rewriting)
    ensures StepsLikePiece(step, rules, random)
  {
    step := Step(rules, random);
  }

  /** Two steps that both agree with `Piece` make the same pass. */
  lemma {:induction false} PassesAgree(input: string, f: (char, nat) -> Rewriting, g: (char, nat) -> Rewriting,
                                       rules: seq<Rule>, random: nat -> real, first: nat)
    requires StepsLikePiece(f, rules, random) && StepsLikePiece(g, rules, random)
    ensures Pass(input, f, first) == Pass(input, g, first)
  {
    if input != [] {
      var prefix := input[..|input| - 1];
      PassesAgree(prefix, f, g, rules, random, first);
      var at := first + Pass(prefix, f, first).draws;
      assert f(input[|input| - 1], at) == Piece(input[|input| - 1], rules, random, at);
    }
  }

  /** What `applyRules` does with one character `ch`, given the draw `u` that `selectRule` would make. */
  method RewriteChar(ch: char, rules: RuleCollection, u: real) returns (piece: Rewriting)
    ensures piece == Outcome(ch, Matching(rules, ch), u)
  {
    var matchingRules := KeyedFindAll(InputOf, [ch], rules, DefaultComparator);
    if |matchingRules| <= 0 {
      return Rewriting([ch], 0);
    }
    var rule, drew := SelectRule(matchingRules, u);
    OutcomeOfSelection(ch, matchingRules, u, rule, drew);
    piece := Rewriting(rule.output, if drew then 1 else 0);
  }

  /** `RewriteChar` as a step of a pass that agrees with `Piece`, the draw being `random(at)`. */
  method StepChar(ch: char, rules: RuleCollection, random: nat -> real, at: nat, ghost step: (char, nat) -> Rewriting)
    returns (piece: Rewriting)
    requires StepsLikePiece(step, rules, random)
    ensures piece == step(ch, at)
  {
    piece := RewriteChar(ch, rules, random(at));
    assert piece == Piece(ch, rules, random, at);
  }

  /** A pass by a step that agrees with `Piece` is the rewriting pass. */
  lemma PassIsRewrite(input: string, step: (char, nat) -> Rewriting, rules: seq<Rule>, random: nat -> real, first: nat)
    requires StepsLikePiece(step, rules, random)
    ensures Pass(input, step, first) == Rewrite(input, rules, random, first)
  {
    PassesAgree(input, step, Step(rules, random), rules, random, first);
  }

  /**
   * `applyRules(input, rules)`, drawing from `random(first)` on; `used` is
   * the number of draws it consumed.
   */
  method ApplyRules(input: string, rules: RuleCollection, random: nat -> real, first: nat)
    returns (output: string, used: nat)
    ensures Rewriting(output, used) == Rewrite(input, rules, random, first)
  {
    ghost var step := StepLikePiece(rules, random);
    output, used := RewriteEach(input, rules, random, first, step);
    PassIsRewrite(input, step, rules, random, first);
  }

  /**
   * The `for` loop of `applyRules`: each character in turn is rewritten
   * and its text appended to `output`.
   */
  method RewriteEach(input: string, rules: RuleCollection, random: nat -> real, first: nat,
                     ghost step: (char, nat) -> Rewriting)
    returns (output: string, used: nat)
    requires StepsLikePiece(step, rules, random)
    ensures Rewriting(output, used) == Pass(input, step, first)
  {
    output := "";
    used := 0;
    var i := 0;
    while i < |input|
      invariant 0 <= i <= |input|
      invariant Rewriting(output, used) == Pass(input[..i], step, first)
    {
      var piece := StepChar(input[i], rules, random, first + used, step);
      PassSnoc(input, i, step, first);
      output := output + piece.output;
      used := used + piece.draws;
      i := i + 1;
    }
    assert input[..|input|] == input;
  }

  /** A character that is no rule's input is found no rule. */
  lemma UnmatchedFindsNothing(rules: seq<Rule>, c: char)
    requires forall j :: 0 <= j < |rules| ==> rules[j].input != [c]
    ensures Matching(rules, c) == []
  {
  }

  /** A character that is no rule's input is copied unchanged, and no draw is made for it. */
  lemma UnmatchedCopied(c: char, rules: seq<Rule>, random: nat -> real, at: nat)
    requires forall j :: 0 <= j < |rules| ==> rules[j].input != [c]
    ensures Piece(c, rules, random, at) == Rewriting([c], 0)
  {
    UnmatchedFindsNothing(rules, c);
  }

  /** An input that contains no rule's input comes back unchanged, without a draw. */
  lemma {:induction false} NoInputsUnchanged(input: string, rules: seq<Rule>, random: nat -> real, first: nat)
    requires forall i, j :: 0 <= i < |input| && 0 <= j < |rules| ==> rules[j].input != [input[i]]
    ensures Rewrite(input, rules, random, first) == Rewriting(input, 0)
  {
    if input != [] {
      var prefix := input[..|input| - 1];
      NoInputsUnchanged(prefix, rules, random, first);
      UnmatchedCopied(input[|input| - 1], rules, random, first);
      assert prefix + [input[|input| - 1]] == input;
    }
  }

  // ---------------------------------------------------------------------
  // Sorted rules
  // ---------------------------------------------------------------------

  /** The order `keyedFindAll` needs: rules sorted by `input`. */
  ghost predicate SortedByInput(rules: seq<Rule>)
  {
    Sorted(Project(rules, InputOf), DefaultComparator)
  }

  /** The position of the leftmost rule with input `s`, or `|rules|` when there is none. */
  function FirstWith(rules: seq<Rule>, s: string): (j: int)
    ensures 0 <= j <= |rules|
    ensures j < |rules| ==> rules[j].input == s
    ensures forall l :: 0 <= l < j ==> rules[l].input != s
  {
    if rules == [] then 0
    else if rules[0].input == s then 0
    else 1 + FirstWith(rules[1..], s)
  }

  /** Reference replacement for one character: the output of the leftmost rule with that input. */
  function Replacement(c: char, rules: seq<Rule>): string
  {
    var j := FirstWith(rules, [c]);
    if j < |rules| then rules[j].output else [c]
  }

  /** Reference pass: every character replaced by its `Replacement`. */
  function Replaced(input: string, rules: seq<Rule>): string
  {
    if input == [] then []
    else Replaced(input[..|input| - 1], rules) + Replacement(input[|input| - 1], rules)
  }

  lemma SortedIsOrdered(rules: seq<Rule>)
    requires SortedByInput(rules)
    ensures Ordered(Project(rules, InputOf), DefaultComparator)
  {
    DefaultIsComparator();
  }

  /** A position is the leftmost rule with input `s` when the rule there has it and none before does. */
  lemma {:induction false} FirstWithAt(rules: seq<Rule>, s: string, lo: int)
    requires 0 <= lo < |rules| && rules[lo].input == s
    requires forall l :: 0 <= l < lo ==> rules[l].input != s
    ensures FirstWith(rules, s) == lo
  {
    if lo > 0 {
      FirstWithAt(rules[1..], s, lo - 1);
    }
  }

  /** The comparator finds a rule's key equivalent to `t` exactly when the rule's input is `t`. */
  lemma KeyMatches(rules: seq<Rule>, t: string, j: int)
    requires 0 <= j < |rules|
    ensures DefaultComparator(Project(rules, InputOf)[j], t) == 0 <==> rules[j].input == t
  {
  }

  /** Every rule found is one of `rules`. */
  lemma MatchingWithin(rules: seq<Rule>, c: char)
    ensures forall j :: 0 <= j < |Matching(rules, c)| ==> Matching(rules, c)[j] in rules
  {
    var keys := Project(rules, InputOf);
    var k := Search(keys, [c], DefaultComparator);
    if k >= 0 {
      AroundHit(rules, keys, [c], DefaultComparator, k);
    }
  }

  /**
   * On rules sorted by input, nothing is found for `c` exactly when no rule
   * has input `[c]`; otherwise the first rule found is the leftmost rule
   * with that input.
   */
  lemma MatchingStartsLeftmost(rules: seq<Rule>, c: char)
    requires SortedByInput(rules)
    ensures Matching(rules, c) == [] <==> FirstWith(rules, [c]) == |rules|
    ensures Matching(rules, c) != [] ==> Matching(rules, c)[0] == rules[FirstWith(rules, [c])]
  {
    var keys := Project(rules, InputOf);
    var t := [c];
    assert Matching(rules, c) == [] <==> FirstWith(rules, t) == |rules| by {
      SortedIsOrdered(rules);
      FindAllEmpty(rules, keys, t, DefaultComparator);
      AbsentIffNoKey(rules, t);
    }
    var k := Search(keys, t, DefaultComparator);
    if k >= 0 {
      HitStartsLeftmost(rules, c, k);
    }
  }

  /** No rule's key is equivalent to `t` exactly when no rule has input `t`. */
  lemma AbsentIffNoKey(rules: seq<Rule>, t: string)
    ensures (forall j :: 0 <= j < |rules| ==> DefaultComparator(Project(rules, InputOf)[j], t) != 0)
        <==> FirstWith(rules, t) == |rules|
  {
    forall j | 0 <= j < |rules| {
      KeyMatches(rules, t, j);
    }
  }

  /**
   * When the search hits, what `keyedFindAll` finds starts with the element
   * at the start of the run, the leftmost equivalent key.
   */
  lemma RunHeadsAround<T, K(!new)>(a: seq<T>, keys: seq<K>, t: K, cmp: (K, K) -> Ordering, k: int)
    requires |a| == |keys| && Ordered(keys, cmp)
    requires k == Search(keys, t, cmp) && k >= 0
    ensures var lo := RunStart(keys, t, cmp, k);
      && lo < |keys| && cmp(keys[lo], t) == 0
      && (forall l :: 0 <= l < lo ==> cmp(keys[l], t) != 0)
      && Around(a, keys, t, cmp) != [] && Around(a, keys, t, cmp)[0] == a[lo]
  {
    var lo := RunStart(keys, t, cmp, k);
    assert lo <= k && cmp(keys[lo], t) == 0 && forall l :: 0 <= l < lo ==> cmp(keys[l], t) != 0 by {
      FindAllHit(a, keys, t, cmp, k);
    }
    var found := a[lo..k + 1];
    assert Around(a, keys, t, cmp) == found + a[k..RunEnd(keys, t, cmp, k)] by {
      AroundHit(a, keys, t, cmp, k);
    }
    assert found[0] == a[lo];
  }

  /** When the search hits, the first rule found is the leftmost rule with input `[c]`. */
  lemma HitStartsLeftmost(rules: seq<Rule>, c: char, k: int)
    requires SortedByInput(rules)
    requires k == Search(Project(rules, InputOf), [c], DefaultComparator) && k >= 0
    ensures FirstWith(rules, [c]) < |rules|
    ensures Matching(rules, c) != [] && Matching(rules, c)[0] == rules[FirstWith(rules, [c])]
  {
    var keys := Project(rules, InputOf);
    var t := [c];
    var lo := RunStart(keys, t, DefaultComparator, k);
    SortedIsOrdered(rules);
    RunHeadsAround(rules, keys, t, DefaultComparator, k);
    KeyMatches(rules, t, lo);
    forall l | 0 <= l < lo
      ensures rules[l].input != t
    {
      KeyMatches(rules, t, l);
    }
    FirstWithAt(rules, t, lo);
  }

  /**
   * On rules sorted by input with all probabilities 0, a character with a
   * rule becomes the output of the leftmost such rule, without a draw.
   */
  lemma WeightlessPiece(c: char, rules: seq<Rule>, random: nat -> real, at: nat)
    requires SortedByInput(rules)
    requires forall j :: 0 <= j < |rules| ==> rules[j].probability == 0.0
    ensures Piece(c, rules, random, at) == Rewriting(Replacement(c, rules), 0)
  {
    var matching := Matching(rules, c);
    MatchingWithin(rules, c);
    forall j | 0 <= j < |matching|
      ensures matching[j].probability == 0.0
    {
      assert matching[j] in rules;
    }
    TotalOfWeightless(matching);
    MatchingStartsLeftmost(rules, c);
  }

  /**
   * On rules sorted by input with all probabilities 0 the pass is
   * deterministic: every character with a rule becomes the output of the
   * leftmost rule with that input, every other character stays, and the
   * random stream is not touched.
   */
  lemma {:induction false} WeightlessRewrite(input: string, rules: seq<Rule>, random: nat -> real, first: nat)
    requires SortedByInput(rules)
    requires forall j :: 0 <= j < |rules| ==> rules[j].probability == 0.0
    ensures Rewrite(input, rules, random, first) == Rewriting(Replaced(input, rules), 0)
  {
    if input != [] {
      WeightlessRewrite(input[..|input| - 1], rules, random, first);
      WeightlessPiece(input[|input| - 1], rules, random, first);
    }
  }

  /**
   * On rules sorted by input, the rule at the search's hit `k` is found
   * twice, so its probability enters the weighted choice twice: the weight
   * of what is found is that of all rules with input `[c]` plus that of
   * `rules[k]` once more.
   */
  lemma HitCountedTwice(rules: seq<Rule>, c: char)
    requires SortedByInput(rules)
    requires Search(Project(rules, InputOf), [c], DefaultComparator) >= 0
    ensures var keys, k := Project(rules, InputOf), Search(Project(rules, InputOf), [c], DefaultComparator);
      Total(Matching(rules, c))
        == Total(Equivalents(rules, keys, [c], DefaultComparator)) + rules[k].probability
  {
    var keys := Project(rules, InputOf);
    var t := [c];
    var k := Search(keys, t, DefaultComparator);
    SortedIsOrdered(rules);
    FindAllHit(rules, keys, t, DefaultComparator, k);
    var lo, hi := RunStart(keys, t, DefaultComparator, k), RunEnd(keys, t, DefaultComparator, k);
    EquivalentsOfRun(rules, keys, t, DefaultComparator, lo, hi);
    DoubledTotal(rules, lo, k, hi);
  }

  /** A run with its element at `k` repeated weighs that element once more. */
  lemma DoubledTotal(rules: seq<Rule>, lo: int, k: int, hi: int)
    requires 0 <= lo <= k < hi <= |rules|
    ensures Total(rules[lo..k + 1] + rules[k..hi]) == Total(rules[lo..hi]) + rules[k].probability
  {
    assert rules[lo..hi] == rules[lo..k + 1] + rules[k + 1..hi];
    assert rules[k..hi] == [rules[k]] + rules[k + 1..hi];
    TotalConcat(rules[lo..k + 1], rules[k..hi]);
    TotalConcat(rules[lo..k + 1], rules[k + 1..hi]);
    TotalConcat([rules[k]], rules[k + 1..hi]);
    assert Total([rules[k]]) == SumTo([rules[k]], 0) + rules[k].probability;
  }
}
