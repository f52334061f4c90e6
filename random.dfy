/**
 * The seeded generator of src/renderer/src/random.ts.
 *
 * JavaScript's `^`, `<<` and `>>>` convert their operands to 32-bit
 * integers, so the generator's state and the hash are `bv32` values here.
 * `hash * 33` is exact in a double (|hash| < 2^31), and `ToInt32` keeps it
 * modulo 2^32, which is what `bv32` multiplication does. The signed view
 * the source holds between steps has the same bits as the unsigned one
 * `>>> 0` returns, so one `bv32` stands for both.
 */
module Random {

  /** A UTF-16 code unit, what `charCodeAt` returns. */
  type CodeUnit = bv16

  /** The UTF-16 code units of one character: one unit, or a surrogate pair above U+FFFF. */
  function UnitsOf(c: char): (units: seq<CodeUnit>)
    ensures |units| == if c as int < 0x1_0000 then 1 else 2
  {
    var v := c as int;
    if v < 0x1_0000 then [v as bv16]
    else [(0xD800 + (v - 0x1_0000) / 0x400) as bv16, (0xDC00 + (v - 0x1_0000) % 0x400) as bv16]
  }

  /** The UTF-16 code units of a string, as JavaScript stores it. */
  function CodeUnits(s: string): seq<CodeUnit>
  {
    if s == [] then [] else UnitsOf(s[0]) + CodeUnits(s[1..])
  }

  /**
   * The djb2-style hash of `hash`: starting from 5381, the units are folded
   * from the last to the first as `(h * 33) ^ unit`.
   */
  function Djb(units: seq<CodeUnit>): bv32
  {
    if units == [] then 5381 else Mix(Djb(units[1..]), units[0])
  }

  /**
   * One round of the hash: `(hash * 33) ^ charCode`. Dafny's `^` binds
   * tighter than `*`, so the parentheses are needed.
   */
  function Mix(h: bv32, unit: CodeUnit): bv32
  {
    (h * 33) ^ (unit as bv32)
  }

  /** `x ^ (x << k)`, one left step of `next`. */
  function XorLeft(x: bv32, k: bv32): bv32
    requires k < 32
  {
    x ^ (x << k)
  }

  /** `x ^ (x >>> k)`, its right step; `>>` on `bv32` shifts in zeros as `>>>` does. */
  function XorRight(x: bv32, k: bv32): bv32
    requires k < 32
  {
    x ^ (x >> k)
  }

  /** One step of `next`: `x ^= x << 21; x ^= x >>> 3; x ^= x << 4`. */
  function Xorshift(x: bv32): bv32
  {
    XorLeft(XorRight(XorLeft(x, 21), 3), 4)
  }

  /** A left step with a positive shift keeps a nonzero state nonzero: its lowest set bit survives. */
  lemma LeftStepKeepsNonzero(x: bv32, k: bv32)
    requires x != 0 && 0 < k < 32
    ensures XorLeft(x, k) != 0
  {
  }

  /** So does a right step: the highest set bit survives. */
  lemma RightStepKeepsNonzero(x: bv32, k: bv32)
    requires x != 0 && 0 < k < 32
    ensures XorRight(x, k) != 0
  {
  }

  /** A state of 0 is a fixed point of `next`: every step XORs in a shift of 0. */
  lemma ZeroIsFixed()
    ensures Xorshift(0) == 0
  {
  }

  /** Any other state never reaches 0. */
  lemma NonzeroStaysNonzero(x: bv32)
    requires x != 0
    ensures Xorshift(x) != 0
  {
    var a := XorLeft(x, 21);
    LeftStepKeepsNonzero(x, 21);
    var b := XorRight(a, 3);
    RightStepKeepsNonzero(a, 3);
    LeftStepKeepsNonzero(b, 4);
  }

  /** `hash('')` is the starting value 5381. */
  lemma EmptyHash()
    ensures Djb(CodeUnits("")) == 5381
  {
  }

  /** `hash('a')`: one round on 5381, `(5381 * 33) ^ 0x61`. */
  lemma HashOfA()
    ensures Djb(CodeUnits("a")) == 177604
  {
    assert CodeUnits("a") == [0x61];
  }

  /** The code units of `'default'`, one per character. */
  lemma DefaultUnits()
    ensures CodeUnits("default") == [0x64, 0x65, 0x66, 0x61, 0x75, 0x6C, 0x74]
  {
    var units: seq<CodeUnit> := [0x64, 0x65, 0x66, 0x61, 0x75, 0x6C, 0x74];
    assert CodeUnits("") == units[7..];
    assert CodeUnits("t") == units[6..] by {
      assert "t"[1..] == "";
      assert UnitsOf('t') == [units[6]];
      assert units[6..] == [units[6]] + units[7..];
    }
    assert CodeUnits("lt") == units[5..] by {
      assert "lt"[1..] == "t";
      assert UnitsOf('l') == [units[5]];
      assert units[5..] == [units[5]] + units[6..];
    }
    assert CodeUnits("ult") == units[4..] by {
      assert "ult"[1..] == "lt";
      assert UnitsOf('u') == [units[4]];
      assert units[4..] == [units[4]] + units[5..];
    }
    assert CodeUnits("ault") == units[3..] by {
      assert "ault"[1..] == "ult";
      assert UnitsOf('a') == [units[3]];
      assert units[3..] == [units[3]] + units[4..];
    }
    assert CodeUnits("fault") == units[2..] by {
      assert "fault"[1..] == "ault";
      assert UnitsOf('f') == [units[2]];
      assert units[2..] == [units[2]] + units[3..];
    }
    assert CodeUnits("efault") == units[1..] by {
      assert "efault"[1..] == "fault";
      assert UnitsOf('e') == [units[1]];
      assert units[1..] == [units[1]] + units[2..];
    }
    assert CodeUnits("default") == units[0..] by {
      assert "default"[1..] == "efault";
      assert UnitsOf('d') == [units[0]];
      assert units[0..] == [units[0]] + units[1..];
    }
    assert units[0..] == units;

  }

  /** `hash('default')`, the state of a generator built without a seed. */
  lemma HashOfDefault()
    ensures Djb(CodeUnits("default")) == 2072405198
  {
    var units: seq<CodeUnit> := [0x64, 0x65, 0x66, 0x61, 0x75, 0x6C, 0x74];
    DefaultUnits();
    assert Djb(units[7..]) == 5381;
    assert Djb(units[6..]) == 177617 by {
      assert units[6..][1..] == units[7..];
      assert Mix(5381, units[6]) == 177617;
    }
    assert Djb(units[5..]) == 5861277 by {
      assert units[5..][1..] == units[6..];
      assert Mix(177617, units[5]) == 5861277;
    }
    assert Djb(units[4..]) == 193422152 by {
      assert units[4..][1..] == units[5..];
      assert Mix(5861277, units[4]) == 193422152;
    }
    assert Djb(units[3..]) == 2087963689 by {
      assert units[3..][1..] == units[4..];
      assert Mix(193422152, units[3]) == 2087963689;
    }
    assert Djb(units[2..]) == 183324975 by {
      assert units[2..][1..] == units[3..];
      assert Mix(2087963689, units[2]) == 183324975;
    }
    assert Djb(units[1..]) == 1754756970 by {
      assert units[1..][1..] == units[2..];
      assert Mix(183324975, units[1]) == 1754756970;
    }
    assert Djb(units[0..]) == 2072405198 by {
      assert units[0..][1..] == units[1..];
      assert Mix(1754756970, units[0]) == 2072405198;
    }
    assert units[0..] == units;
  }

  /** The first raw value of `new PseudoRandom().next()`. */
  lemma FirstDefaultOutput()
    ensures Outputs("default", 1) == [518270247]
  {
    HashOfDefault();
    assert Xorshift(2072405198) == 518270247;
  }

  /** The state reached from `s` after `n` calls of `next`. */
  function Iterate(s: bv32, n: nat): bv32
  {
    if n == 0 then s else Xorshift(Iterate(s, n - 1))
  }

  /** The raw values of the first `n` calls of `next` on a generator seeded with `seed`. */
  function Outputs(seed: string, n: nat): (out: seq<bv32>)
    ensures |out| == n
  {
    if n == 0 then [] else Outputs(seed, n - 1) + [Iterate(Djb(CodeUnits(seed)), n)]
  }

  /** The `i`-th value is the state after `i + 1` steps from the seed's hash. */
  lemma {:induction false} OutputsAre(seed: string, n: nat, i: nat)
    requires i < n
    ensures Outputs(seed, n)[i] == Iterate(Djb(CodeUnits(seed)), i + 1)
  {
    if i < n - 1 {
      OutputsAre(seed, n - 1, i);
    }
  }

  /**
   * Two generators whose seeds hash alike, in particular two built from the
   * same seed, produce the same values.
   */
  lemma {:induction false} SameHashSameOutputs(seed: string, seed': string, n: nat)
    requires Djb(CodeUnits(seed)) == Djb(CodeUnits(seed'))
    ensures Outputs(seed, n) == Outputs(seed', n)
  {
    if n > 0 {
      SameHashSameOutputs(seed, seed', n - 1);
    }
  }

  /** A generator started at 0 stays at 0. */
  lemma {:induction false} ZeroStaysZero(n: nat)
    ensures Iterate(0, n) == 0
  {
    if n > 0 {
      ZeroStaysZero(n - 1);
      ZeroIsFixed();
    }
  }

  /** A generator started anywhere else never reaches 0. */
  lemma {:induction false} NonzeroNeverZero(s: bv32, n: nat)
    requires s != 0
    ensures Iterate(s, n) != 0
  {
    if n > 0 {
      NonzeroNeverZero(s, n - 1);
      NonzeroStaysNonzero(Iterate(s, n - 1));
    }
  }

  class PseudoRandom {
    var state: bv32

    /** `new PseudoRandom(seed)`, the seed defaulting to `'default'`. */
    constructor (seed: string := "default")
      ensures state == Djb(CodeUnits(seed))
    {
      var h := Hash(seed);
      state := h;
    }

    /** `hash(input)`: the `while` loop over the code units from the last down to the first. */
    static method Hash(input: string) returns (h: bv32)
      ensures h == Djb(CodeUnits(input))
    {
      var units := CodeUnits(input);
      var hash: bv32 := 5381;
      var i := |units|;
      while i > 0
        invariant 0 <= i <= |units|
        invariant hash == Djb(units[i..])
      {
        i := i - 1;
        assert units[i..][1..] == units[i + 1..];
        hash := Mix(hash, units[i]);
      }
      assert units[0..] == units;
      return hash;
    }

    /**
     * `next()` up to its final division: it advances the state by one
     * xorshift step and returns the new state as an unsigned value.
     */
    method Next() returns (r: bv32)
      modifies this
      ensures state == Xorshift(old(state))
      ensures r == state
    {
      state := XorLeft(state, 21);
      state := XorRight(state, 3);
      state := XorLeft(state, 4);
      r := state;
    }
  }

  /**
   * A generator built from `seed` and asked `n` times for `next()` returns,
   * up to the final division, exactly `Outputs(seed, n)`.
   */
  method Generate(seed: string, n: nat) returns (out: seq<bv32>)
    ensures out == Outputs(seed, n)
  {
    var p := new PseudoRandom(seed);
    ghost var h := Djb(CodeUnits(seed));
    out := [];
    while |out| < n
      invariant |out| <= n
      invariant p.state == Iterate(h, |out|)
      invariant out == Outputs(seed, |out|)
    {
      ghost var k := |out|;
      var r := p.Next();
      assert r == Iterate(h, k + 1);
      out := out + [r];
      assert out == Outputs(seed, k + 1);
    }
  }
}
