/** Fixed-width big-endian integers (struct formats '>I' and '>Q'). */
module BigEndian {
  import opened Common

  function Pow256(n: nat): (p: nat)
    ensures p > 0
  {
    if n == 0 then 1 else 256 * Pow256(n - 1)
  }

  function Pack(v: nat, n: nat): (b: Bytes)
    ensures |b| == n
    decreases n, v
  {
    if n == 0 then [] else Pack(v / 256, n - 1) + [v % 256]
  }

  function Unpack(b: Bytes): nat {
    if b == [] then 0 else 256 * Unpack(b[..|b| - 1]) + b[|b| - 1]
  }

  lemma {:induction false} UnpackPack(v: nat, n: nat)
    requires v < Pow256(n)
    ensures Unpack(Pack(v, n)) == v
    decreases n
  {
    if n > 0 {
      UnpackPack(v / 256, n - 1);
      assert Pack(v, n)[..n - 1] == Pack(v / 256, n - 1);
    }
  }

  lemma {:induction false} PackUnpack(b: Bytes)
    ensures Unpack(b) < Pow256(|b|)
    ensures Pack(Unpack(b), |b|) == b
  {
    if b == [] {
    } else {
      PackUnpack(b[..|b| - 1]);
    }
  }

  lemma Widths()
    ensures Pow256(4) == 0x1_0000_0000
    ensures Pow256(8) == 0x1_0000_0000_0000_0000
    ensures Pow256(1) == 256
  {
    assert Pow256(2) == 0x1_0000;
    assert Pow256(6) == 0x1_0000_0000_0000;
  }
}

/** The MWRC input recipe, and the decoded rows of a retail clock stream. */
module RetailRecipe {
  import opened Common
  import opened BigEndian

  const MAGIC: Bytes := [0x4d, 0x57, 0x52, 0x43]
  const QUEUE_READ_PC := 0x803769d4

  /** A JSON value as the binders compare it: absent, an integer, a value of
      another type that equals an integer (5.0, true), a number that equals
      none, or anything else. */
  datatype Field = Missing | Int(n: int) | Like(n: int) | Fraction | Other {
    predicate Equals(k: int) { (Int? || Like?) && n == k }
    predicate Comparable() { !Missing? && !Other? }
    function Value(): int { if Int? then n else 0 }
  }

  /** The words of the startup probe that the clock binder reads. */
  datatype Probe = Probe(cadence: seq<nat>, video: seq<int>, timeAdjust: int, timeBase: int, viPeriod: int)

  datatype Row = Row(sourceTick: Field, clockPc: Field, r3: Field, coreTicks: Field, queueBytes: Option<seq<Field>>,
                     probe: Option<Probe>)

  /** The header fields of a recipe of at least twenty bytes. */
  function Version(recipe: Bytes): nat requires |recipe| >= 20 { Unpack(recipe[4..8]) }
  function Seed(recipe: Bytes): nat requires |recipe| >= 20 { Unpack(recipe[8..12]) }
  function Frames(recipe: Bytes): nat requires |recipe| >= 20 { Unpack(recipe[12..16]) }

  /** A complete version 4 recipe of at least `least` frames. */
  predicate CompleteV4(recipe: Bytes, least: nat) {
    && |recipe| >= 20
    && recipe[0..4] == MAGIC && Version(recipe) == 4
    && least <= Frames(recipe) <= 36000
    && |recipe| == 20 + 312 + 822 + 44 * Frames(recipe)
  }

  /** A recipe re-issued under another version with a block inserted after its
      twenty-byte header. */
  function Reissue(recipe: Bytes, version: nat, block: Bytes): Bytes
    requires |recipe| >= 20
  {
    recipe[0..4] + Pack(version, 4) + Pack(Seed(recipe), 4) + Pack(Frames(recipe), 4) + recipe[16..20] + block
        + recipe[20..]
  }

  /** Removes a block of known length and restores version 4. */
  function Restore(output: Bytes, length: nat): Bytes
    requires |output| >= 20 + length
  {
    output[..4] + Pack(4, 4) + output[8..20] + output[20 + length..]
  }

  lemma ReissueLayout(recipe: Bytes, version: nat, block: Bytes)
    requires |recipe| >= 20
    ensures var out := Reissue(recipe, version, block);
            && |out| == |recipe| + |block|
            && out[..4] == recipe[..4] && out[4..8] == Pack(version, 4)
            && out[8..20] == recipe[8..20]
            && out[20..20 + |block|] == block && out[20 + |block|..] == recipe[20..]
  {
    PackUnpack(recipe[8..12]);
    PackUnpack(recipe[12..16]);
    var out := Reissue(recipe, version, block);
    var head := recipe[0..4] + Pack(version, 4);
    assert recipe[8..20] == recipe[8..12] + recipe[12..16] + recipe[16..20];
    assert out == head + recipe[8..20] + block + recipe[20..];
  }

  /** Removing the inserted block and restoring version 4 gives back the recipe. */
  lemma ReissueRestores(recipe: Bytes, version: nat, block: Bytes)
    requires CompleteV4(recipe, 0)
    ensures Restore(Reissue(recipe, version, block), |block|) == recipe
  {
    ReissueLayout(recipe, version, block);
    PackUnpack(recipe[4..8]);
    assert recipe == recipe[..4] + recipe[4..8] + recipe[8..20] + recipe[20..];
  }
}
