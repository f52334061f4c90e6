/**
 * The L-system part of `createScene` in src/renderer/src/renderer.ts: the
 * grammar is expanded a fixed number of times, and the resulting command
 * string drives a turtle through a loop over its characters.
 *
 * Vectors are a type parameter `V`, and the arithmetic on them goes through
 * a `Geometry` of functions, because it is floating point. The vector
 * objects are used as values: the only in-place changes the loop makes
 * (`normalize` and `multiplyScalar` on the current direction) are
 * reassignments here, and nothing else refers to that object. The scene
 * itself is an `Event` list: a marker point or an arrow per drawing call.
 */
module Scene {
  import opened Rules
  import opened Grammars

  /** The vector operations the loop uses, and the two vectors it starts from. */
  datatype Geometry<!V> = Geometry(
    origin: V,                      // new Vector3(0, 0, 0)
    up: V,                          // new Vector3(0, 1, 0)
    add: (V, V) -> V,               // a.clone().add(b)
    scale: (V, real) -> V,          // v.multiplyScalar(s)
    normalize: V -> V,              // v.normalize()
    cone: (int, real) -> V          // randomDirectionVector at an angle in degrees, given Math.random()
  )

  /** `drawDebugPoint`'s default colour, and the one `]` passes. */
  const Red := 0xff0000
  const Green := 0x00ff00

  /** A call that adds something to the scene. */
  datatype Event<V> =
    | Point(at: V, color: int)                     // drawDebugPoint(at, scene, color)
    | Arrow(direction: V, origin: V, length: real) // new ArrowHelper(direction, origin, length)

  /** The five current values, and the record `[` saves. */
  datatype Turtle<V> = Turtle(position: V, direction: V, length: real, radius: real, angle: int)

  /** Everything the command loop has built: the turtle, the saved stack, the scene and the next draw. */
  datatype Sketch<V> = Sketch(turtle: Turtle<V>, stack: seq<Turtle<V>>, events: seq<Event<V>>, next: nat)

  /** The grammar `createScene` uses: axiom `Z` and the default rules. */
  const SceneGrammar := Grammar("Z", BranchRules)
  const Iterations := 4

  // ---------------------------------------------------------------------
  // Expansion
  // ---------------------------------------------------------------------

  /**
   * The command string after `n` rounds of `s += applyRules(s, rules)`,
   * with the number of draws taken so far, for the pass `step` that
   * `applyRules` makes (`Step(rules, random)`, see `Rewrite`).
   */
  function Expanded(axiom: string, step: (char, nat) -> Rewriting, n: nat): Rewriting
  {
    if n == 0 then Rewriting(axiom, 0)
    else
      var before := Expanded(axiom, step, n - 1);
      var grown := Pass(before.output, step, before.draws);
      Rewriting(before.output + grown.output, before.draws + grown.draws)
  }

  /** The expansion loop of `createScene`. */
  method Expand(axiom: string, rules: RuleCollection, random: nat -> real, iterations: nat)
    returns (renderedCommands: string, used: nat)
    ensures Rewriting(renderedCommands, used) == Expanded(axiom, Step(rules, random), iterations)
  {
    renderedCommands := axiom;
    used := 0;
    for i := 0 to iterations
      invariant Rewriting(renderedCommands, used) == Expanded(axiom, Step(rules, random), i)
    {
      var grown, draws := ApplyRules(renderedCommands, rules, random, used);
      renderedCommands := renderedCommands + grown;
      used := used + draws;
    }
  }

  /** With no iteration the commands are the axiom. */
  lemma NoIterationIsAxiom(axiom: string, step: (char, nat) -> Rewriting)
    ensures Expanded(axiom, step, 0).output == axiom
  {
  }

  /** Each round only appends, so every earlier command string is a prefix of every later one. */
  lemma {:induction false} ExpansionGrows(axiom: string, step: (char, nat) -> Rewriting, i: nat, j: nat)
    requires i <= j
    ensures Expanded(axiom, step, i).output <= Expanded(axiom, step, j).output
  {
    if i < j {
      ExpansionGrows(axiom, step, i, j - 1);
      var earlier := Expanded(axiom, step, i).output;
      var before := Expanded(axiom, step, j - 1).output;
      assert earlier == before[..|earlier|];
    }
  }

  /** The deterministic expansion by rules that all have probability 0. */
  function Grown(axiom: string, rules: seq<Rule>, n: nat): string
  {
    if n == 0 then axiom
    else
      var before := Grown(axiom, rules, n - 1);
      before + Replaced(before, rules)
  }

  /** Rounds of a pass that replaces as `Replaced` does, and draws nothing, grow as `Grown` says. */
  lemma {:induction false} ReplacingRounds(axiom: string, step: (char, nat) -> Rewriting, rules: seq<Rule>, n: nat)
    requires forall input, first {:trigger Replaced(input, rules), Pass(input, step, first)} ::
      Pass(input, step, first) == Rewriting(Replaced(input, rules), 0)
    ensures Expanded(axiom, step, n) == Rewriting(Grown(axiom, rules, n), 0)
  {
    if n > 0 {
      ReplacingRounds(axiom, step, rules, n - 1);
      var before := Grown(axiom, rules, n - 1);
      var grown := Pass(before, step, 0);
      assert grown == Rewriting(Replaced(before, rules), 0);
      assert Expanded(axiom, step, n) == Rewriting(before + grown.output, grown.draws);
    }
  }

  /**
   * With rules sorted by input and all probabilities 0, the expansion
   * neither depends on nor touches the random stream.
   */
  lemma WeightlessExpansion(axiom: string, rules: seq<Rule>, random: nat -> real, n: nat)
    requires SortedByInput(rules)
    requires forall j :: 0 <= j < |rules| ==> rules[j].probability == 0.0
    ensures Expanded(axiom, Step(rules, random), n) == Rewriting(Grown(axiom, rules, n), 0)
  {
    forall input, first: nat
      ensures Pass(input, Step(rules, random), first) == Rewriting(Replaced(input, rules), 0)
    {
      WeightlessRewrite(input, rules, random, first);
    }
    ReplacingRounds(axiom, Step(rules, random), rules, n);
  }

  /** The scene's grammar is expanded the same way whatever `Math.random` returns. */
  lemma SceneExpansionFixed(random: nat -> real, n: nat)
    ensures Expanded(SceneGrammar.axiom, Step(SceneGrammar.rules, random), n)
         == Rewriting(Grown(SceneGrammar.axiom, SceneGrammar.rules, n), 0)
  {
    BranchRulesSorted();
    WeightlessExpansion(SceneGrammar.axiom, SceneGrammar.rules, random, n);
  }

  // ---------------------------------------------------------------------
  // The command loop
  // ---------------------------------------------------------------------

  /** The values `createScene` starts the loop with, the next draw being `next`. */
  function Initial<V>(g: Geometry<V>, next: nat): Sketch<V>
  {
    Sketch(Turtle(g.origin, g.normalize(g.up), 0.5, 0.1, 0), [], [], next)
  }

  /** `+` and `-`: turn by `delta` degrees and take a new direction in the cone at that angle. */
  function Turn<V>(s: Sketch<V>, delta: int, g: Geometry<V>, random: nat -> real): Sketch<V>
  {
    var angle := s.turtle.angle + delta;
    s.(turtle := s.turtle.(angle := angle, direction := g.normalize(g.cone(angle, random(s.next)))),
       next := s.next + 1)
  }

  /** One pass of the `switch (command)`. */
  function Command<V>(c: char, s: Sketch<V>, g: Geometry<V>, random: nat -> real): Sketch<V>
  {
    var t := s.turtle;
    match c
    case 'F' =>
      // computeDestination normalizes and scales the direction object in place.
      var scaled := g.scale(g.normalize(t.direction), t.length);
      var dst := g.add(t.position, scaled);
      var direction := g.normalize(scaled);
      s.(turtle := t.(position := dst, direction := direction, length := t.length * 0.9),
         events := s.events + [Point(t.position, Red), Point(dst, Red), Arrow(direction, t.position, t.length)])
    case '+' => Turn(s, 20, g, random)
    case '-' => Turn(s, -20, g, random)
    case '[' => s.(stack := s.stack + [t])
    case ']' =>
      if |s.stack| == 0 then s.(events := s.events + [Point(t.position, Green)])
      else
        var saved := s.stack[|s.stack| - 1];
        s.(turtle := saved, stack := s.stack[..|s.stack| - 1], events := s.events + [Point(saved.position, Green)])
    case _ => s
  }

  /** The command loop over `commands`, from `start`. */
  function Run<V>(commands: string, start: Sketch<V>, g: Geometry<V>, random: nat -> real): Sketch<V>
  {
    if commands == [] then start
    else Command(commands[|commands| - 1], Run(commands[..|commands| - 1], start, g, random), g, random)
  }

  lemma RunSnoc<V>(commands: string, i: int, start: Sketch<V>, g: Geometry<V>, random: nat -> real)
    requires 0 <= i < |commands|
    ensures Run(commands[..i + 1], start, g, random) == Command(commands[i], Run(commands[..i], start, g, random), g, random)
  {
    assert commands[..i + 1][..i] == commands[..i];
  }

  /** The `for` loop over `renderedCommands`, with its `switch`. */
  method Interpret<V>(renderedCommands: string, g: Geometry<V>, random: nat -> real, start: Sketch<V>)
    returns (sketch: Sketch<V>)
    ensures sketch == Run(renderedCommands, start, g, random)
  {
    var currentPosition := start.turtle.position;
    var currentDirection := start.turtle.direction;
    var lengthFactor := start.turtle.length;
    var currentRadius := start.turtle.radius;
    var currentAngle := start.turtle.angle;
    var state := start.stack;
    var events := start.events;
    var next := start.next;
    for i := 0 to |renderedCommands|
      invariant Sketch(Turtle(currentPosition, currentDirection, lengthFactor, currentRadius, currentAngle), state, events, next)
             == Run(renderedCommands[..i], start, g, random)
    {
      RunSnoc(renderedCommands, i, start, g, random);
      var command := renderedCommands[i];
      match command
      case 'F' =>
        currentDirection := g.scale(g.normalize(currentDirection), lengthFactor);
        var dst := g.add(currentPosition, currentDirection);
        events := events + [Point(currentPosition, Red), Point(dst, Red)];
        currentDirection := g.normalize(currentDirection);
        events := events + [Arrow(currentDirection, currentPosition, lengthFactor)];
        currentPosition := dst;
        lengthFactor := lengthFactor * 0.9;
      case '+' =>
        currentAngle := currentAngle + 20;
        currentDirection := g.cone(currentAngle, random(next));
        next := next + 1;
        currentDirection := g.normalize(currentDirection);
      case '-' =>
        currentAngle := currentAngle - 20;
        currentDirection := g.cone(currentAngle, random(next));
        next := next + 1;
        currentDirection := g.normalize(currentDirection);
      case '[' =>
        state := state + [Turtle(currentPosition, currentDirection, lengthFactor, currentRadius, currentAngle)];
      case ']' =>
        if |state| == 0 {
          events := events + [Point(currentPosition, Green)];
        } else {
          var saved := state[|state| - 1];
          state := state[..|state| - 1];
          currentPosition := saved.position;
          currentDirection := saved.direction;
          currentRadius := saved.radius;
          currentAngle := saved.angle;
          lengthFactor := saved.length;
          events := events + [Point(currentPosition, Green)];
        }
      case _ =>
    }
    assert renderedCommands[..|renderedCommands|] == renderedCommands;
    sketch := Sketch(Turtle(currentPosition, currentDirection, lengthFactor, currentRadius, currentAngle), state, events, next);
  }

  /**
   * The L-system part of `createScene`: expand the scene's grammar four
   * times, then run the turtle over the result, `Math.random` continuing
   * where the expansion left it.
   */
  method CreateScene<V>(g: Geometry<V>, random: nat -> real) returns (scene: seq<Event<V>>, final: Sketch<V>)
    ensures var expanded := Expanded(SceneGrammar.axiom, Step(SceneGrammar.rules, random), Iterations);
      final == Run(expanded.output, Initial(g, expanded.draws), g, random) && scene == final.events
  {
    var renderedCommands, used := Expand(SceneGrammar.axiom, SceneGrammar.rules, random, Iterations);
    final := Interpret(renderedCommands, g, random, Initial(g, used));
    scene := final.events;
  }

  // ---------------------------------------------------------------------
  // What each command does
  // ---------------------------------------------------------------------

  /**
   * `F` emits two points and an arrow, moves, scales the length by 0.9 and
   * keeps the rest. The direction object is normalized and scaled in place
   * by `computeDestination` and normalized again for the arrow, so the new
   * direction is the normalized step.
   */
  lemma Forward<V>(s: Sketch<V>, g: Geometry<V>, random: nat -> real)
    ensures var r := Command('F', s, g, random);
      && |r.events| == |s.events| + 3 && r.events[..|s.events|] == s.events
      && r.events[|s.events|] == Point(s.turtle.position, Red)
      && r.events[|s.events| + 1] == Point(r.turtle.position, Red)
      && r.events[|s.events| + 2] == Arrow(r.turtle.direction, s.turtle.position, s.turtle.length)
      && r.turtle.position == g.add(s.turtle.position, g.scale(g.normalize(s.turtle.direction), s.turtle.length))
      && r.turtle.direction == g.normalize(g.scale(g.normalize(s.turtle.direction), s.turtle.length))
      && r.turtle.length == s.turtle.length * 0.9
      && r.turtle.angle == s.turtle.angle && r.turtle.radius == s.turtle.radius
      && r.stack == s.stack && r.next == s.next
  {
  }

  /** `+` and `-` change the angle by exactly 20 degrees, draw once, and leave all but the direction alone. */
  lemma Turns<V>(c: char, s: Sketch<V>, g: Geometry<V>, random: nat -> real)
    requires c == '+' || c == '-'
    ensures var r := Command(c, s, g, random);
      && r.turtle.angle == s.turtle.angle + (if c == '+' then 20 else -20)
      && r.turtle.direction == g.normalize(g.cone(r.turtle.angle, random(s.next)))
      && r.turtle.position == s.turtle.position && r.turtle.length == s.turtle.length
      && r.turtle.radius == s.turtle.radius
      && r.stack == s.stack && r.events == s.events && r.next == s.next + 1
  {
  }

  /** `[` saves exactly one record of the five current values and changes nothing else. */
  lemma Push<V>(s: Sketch<V>, g: Geometry<V>, random: nat -> real)
    ensures var r := Command('[', s, g, random);
      && r.stack == s.stack + [s.turtle]
      && r.turtle == s.turtle && r.events == s.events && r.next == s.next
  {
  }

  /** `]` with nothing saved keeps every value and marks the current position. */
  lemma PopNothing<V>(s: Sketch<V>, g: Geometry<V>, random: nat -> real)
    requires s.stack == []
    ensures var r := Command(']', s, g, random);
      && r.turtle == s.turtle && r.stack == []
      && r.events == s.events + [Point(s.turtle.position, Green)] && r.next == s.next
  {
  }

  /** `]` otherwise pops the last record, restores all five values from it, and marks the restored position. */
  lemma Pop<V>(s: Sketch<V>, g: Geometry<V>, random: nat -> real)
    requires s.stack != []
    ensures var r := Command(']', s, g, random);
      && s.stack == r.stack + [r.turtle]
      && r.events == s.events + [Point(r.turtle.position, Green)] && r.next == s.next
  {
  }

  /** Any other character changes nothing and emits nothing. */
  lemma Inert<V>(c: char, s: Sketch<V>, g: Geometry<V>, random: nat -> real)
    requires c !in "F+-[]"
    ensures Command(c, s, g, random) == s
  {
  }

  /** `[` then `]` gives back the sketch as it was, apart from the one marker. */
  lemma PushThenPop<V>(s: Sketch<V>, g: Geometry<V>, random: nat -> real)
    ensures Command(']', Command('[', s, g, random), g, random)
         == s.(events := s.events + [Point(s.turtle.position, Green)])
  {
  }

  // ---------------------------------------------------------------------
  // What the whole loop keeps
  // ---------------------------------------------------------------------

  /** How often `c` occurs in `s`. */
  function Count(s: string, c: char): nat
  {
    if s == [] then 0
    else Count(s[..|s| - 1], c) + if s[|s| - 1] == c then 1 else 0
  }

  /**
   * The stack depth by itself: `[` adds one, `]` takes one away when
   * there is one to take, anything else leaves it.
   */
  function Depth(s: string, d: nat): nat
  {
    if s == [] then d
    else
      var before := Depth(s[..|s| - 1], d);
      match s[|s| - 1]
      case '[' => before + 1
      case ']' => if before == 0 then 0 else before - 1
      case _ => before
  }

  /** The stack is as deep as `[` and the `]` that found a record leave it. */
  lemma {:induction false} StackDepth<V>(commands: string, start: Sketch<V>, g: Geometry<V>, random: nat -> real)
    ensures |Run(commands, start, g, random).stack| == Depth(commands, |start.stack|)
  {
    if commands != [] {
      StackDepth(commands[..|commands| - 1], start, g, random);
    }
  }

  /** Without `]`, the depth grows by the number of `[`. */
  lemma {:induction false} DepthWithoutPops(s: string, d: nat)
    requires ']' !in s
    ensures Depth(s, d) == d + Count(s, '[')
  {
    if s != [] {
      assert s[..|s| - 1] <= s;
      DepthWithoutPops(s[..|s| - 1], d);
    }
  }

  /** The scene gets three events per `F` and one per `]`, and nothing is ever removed from it. */
  lemma {:induction false} EventCount<V>(commands: string, start: Sketch<V>, g: Geometry<V>, random: nat -> real)
    ensures var r := Run(commands, start, g, random);
      && |r.events| == |start.events| + 3 * Count(commands, 'F') + Count(commands, ']')
      && start.events <= r.events
  {
    if commands != [] {
      EventCount(commands[..|commands| - 1], start, g, random);
    }
  }

  /** Exactly one `Math.random` draw per `+` and per `-`. */
  lemma {:induction false} DrawCount<V>(commands: string, start: Sketch<V>, g: Geometry<V>, random: nat -> real)
    ensures Run(commands, start, g, random).next == start.next + Count(commands, '+') + Count(commands, '-')
  {
    if commands != [] {
      DrawCount(commands[..|commands| - 1], start, g, random);
    }
  }

  /** The current angle and every saved one are multiples of 20. */
  ghost predicate OnGrid<V>(s: Sketch<V>)
  {
    s.turtle.angle % 20 == 0 && forall k :: 0 <= k < |s.stack| ==> s.stack[k].angle % 20 == 0
  }

  lemma {:induction false} AnglesOnGrid<V>(commands: string, start: Sketch<V>, g: Geometry<V>, random: nat -> real)
    requires OnGrid(start)
    ensures OnGrid(Run(commands, start, g, random))
  {
    if commands != [] {
      AnglesOnGrid(commands[..|commands| - 1], start, g, random);
    }
  }

  /** The current radius and every saved one keep the value `radius`. */
  ghost predicate RadiusIs<V>(s: Sketch<V>, radius: real)
  {
    s.turtle.radius == radius && forall k :: 0 <= k < |s.stack| ==> s.stack[k].radius == radius
  }

  lemma {:induction false} RadiusKept<V>(commands: string, start: Sketch<V>, radius: real, g: Geometry<V>, random: nat -> real)
    requires RadiusIs(start, radius)
    ensures RadiusIs(Run(commands, start, g, random), radius)
  {
    if commands != [] {
      RadiusKept(commands[..|commands| - 1], start, radius, g, random);
    }
  }

  /** A string without turtle commands changes nothing and draws nothing. */
  lemma {:induction false} InertRun<V>(commands: string, start: Sketch<V>, g: Geometry<V>, random: nat -> real)
    requires forall i :: 0 <= i < |commands| ==> commands[i] !in "F+-[]"
    ensures Run(commands, start, g, random) == start
  {
    if commands != [] {
      InertRun(commands[..|commands| - 1], start, g, random);
      Inert(commands[|commands| - 1], Run(commands[..|commands| - 1], start, g, random), g, random);
    }
  }

  /** In the scene itself the radius stays 0.1 and the angle stays on the 20-degree grid. */
  lemma SceneInvariants<V>(commands: string, g: Geometry<V>, random: nat -> real, next: nat)
    ensures var r := Run(commands, Initial(g, next), g, random);
      RadiusIs(r, 0.1) && OnGrid(r) && |r.stack| == Depth(commands, 0)
  {
    RadiusKept(commands, Initial(g, next), 0.1, g, random);
    AnglesOnGrid(commands, Initial(g, next), g, random);
    StackDepth(commands, Initial(g, next), g, random);
  }
}
