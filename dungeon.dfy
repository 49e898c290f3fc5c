/** The dungeon decorator: decoding a dungeon observation, replaying the
    generator to check a candidate seed against it, and turning the
    observation into a reverser call list whose first solution yields
    candidate structure seeds. */
module Dungeon {
  import opened JavaTypes
  import opened JavaRandom
  import opened Reverser
  import opened Storage

  // ---------------------------------------------------------------------
  // Versions, biomes and the feature

  /** Minecraft release 1.minor.patch. */
  datatype McVersion = McVersion(minor: nat, patch: nat)
  {
    /** Release order: compares minor versions first, then patches. */
    predicate IsOlderThan(other: McVersion)
      ensures IsOlderThan(other) ==> this != other
    {
      minor < other.minor || (minor == other.minor && patch < other.patch)
    }
  }

  const V1_15: McVersion := McVersion(15, 0)

  /** Release order is a strict total order: never both ways, distinct
      versions are ordered one way or the other, and it is transitive. */
  lemma IsOlderThanTotal(a: McVersion, b: McVersion, c: McVersion)
    ensures a.IsOlderThan(b) ==> !b.IsOlderThan(a)
    ensures a != b ==> a.IsOlderThan(b) || b.IsOlderThan(a)
    ensures a.IsOlderThan(b) && b.IsOlderThan(c) ==> a.IsOlderThan(c)
  {
  }

  /** The biomes the dungeon file names; `Other` stands for every biome it
      does not name (the overworld biomes). */
  datatype Biome =
    | NetherWastes | SoulSandValley | WarpedForest | CrimsonForest | BasaltDeltas
    | EndMidlands | EndHighlands | EndBarrens | SmallEndIslands | TheVoid | TheEnd
    | Other(id: nat)

  /** The dungeon feature: the version it generates for and the salt its
      configuration gives each biome. */
  datatype Dungeon = Dungeon(version: McVersion, salt: Biome -> Int64)

  /** `isValidBiome`, as written: its last conjunct is `biome == THE_END`,
      which makes every other conjunct redundant. */
  function IsValidBiome(biome: Biome): (r: bool)
    ensures r <==> biome == TheEnd
  {
    biome != NetherWastes && biome != SoulSandValley && biome != WarpedForest
    && biome != CrimsonForest && biome != BasaltDeltas && biome != EndMidlands
    && biome != EndHighlands && biome != EndBarrens && biome != SmallEndIslands
    && biome != TheVoid && biome == TheEnd
  }

  /** `isValidBiome` with the last conjunct as evidently intended
      (`biome != THE_END`): dungeons are accepted in every biome outside
      the Nether, the End and the void. */
  function IsValidBiomeCorrected(biome: Biome): (r: bool)
    ensures r <==> biome.Other?
  {
    biome != NetherWastes && biome != SoulSandValley && biome != WarpedForest
    && biome != CrimsonForest && biome != BasaltDeltas && biome != EndMidlands
    && biome != EndHighlands && biome != EndBarrens && biome != SmallEndIslands
    && biome != TheVoid && biome != TheEnd
  }

  /** The guard as written rejects every overworld biome, where dungeons
      generate, and accepts the End. */
  lemma IsValidBiomeRejectsOverworld(id: nat)
    ensures !IsValidBiome(Other(id)) && IsValidBiomeCorrected(Other(id))
    ensures IsValidBiome(TheEnd) && !IsValidBiomeCorrected(TheEnd)
  {
  }

  // ---------------------------------------------------------------------
  // Coordinates

  /** A chunk coordinate of a Java `int` block coordinate. */
  type ChunkIndex = c: int | -0x800_0000 <= c <= 0x7FF_FFFF

  /** `block >> 4`: the arithmetic shift rounds toward minus infinity, which
      is Dafny's division by a positive divisor. */
  function ChunkCoord(block: Int32): (chunk: ChunkIndex)
    ensures chunk * 16 <= block < chunk * 16 + 16
  {
    block / 16
  }

  /** `block & 15`: the low four bits of the two's-complement value, which
      is Dafny's (never negative) remainder by 16. */
  function InChunkOffset(block: Int32): (offset: int)
    ensures 0 <= offset < 16
    ensures ChunkCoord(block) * 16 + offset == block
  {
    block % 16
  }

  // ---------------------------------------------------------------------
  // The floor observation

  const COBBLESTONE_CALL: int := 0
  const MOSSY_COBBLESTONE_CALL: int := 1
  const MIN_FLOOR_BITS: nat := 26
  const MAX_FLOOR_BITS: nat := 48

  /** Number of floor entries equal to COBBLESTONE_CALL. */
  function CobblestoneCount(floor: seq<int>): nat
  {
    if floor == [] then 0
    else CobblestoneCount(floor[..|floor| - 1])
         + (if floor[|floor| - 1] == COBBLESTONE_CALL then 1 else 0)
  }

  /** The count is the multiplicity of COBBLESTONE_CALL: mossy and other
      entries add nothing, and order does not matter. */
  lemma {:induction false} CobblestoneCountIsMultiplicity(floor: seq<int>)
    ensures CobblestoneCount(floor) == multiset(floor)[COBBLESTONE_CALL]
    decreases |floor|
  {
    if floor != [] {
      var init, last := floor[..|floor| - 1], floor[|floor| - 1];
      assert floor == init + [last];
      assert multiset(floor) == multiset(init) + multiset{last};
      CobblestoneCountIsMultiplicity(init);
    }
  }

  /** The score the constructor accumulates: 2 bits per cobblestone entry,
      nothing when the floor was not observed. */
  function FloorBits(floorCalls: Option<seq<Int32>>): nat
  {
    match floorCalls
    case None => 0
    case Some(floor) => 2 * CobblestoneCount(floor)
  }

  // ---------------------------------------------------------------------
  // Replaying dungeon attempts (canStart)

  /** The (x, y, z) one dungeon attempt draws from state `s`: before 1.15 in
      the order x, y, z, from 1.15 on in the order x, z, y. */
  function AttemptDraw(version: McVersion, s: Seed): (pos: (int, int, int))
    ensures 0 <= pos.0 < 16 && 0 <= pos.1 < 256 && 0 <= pos.2 < 16
  {
    var first, second, third := s, Step(s), Step(Step(s));
    assert IsTopBitsBound(16) && IsTopBitsBound(256);
    NextIntTopBits(first, 16);
    NextIntTopBits(second, 16);
    NextIntTopBits(second, 256);
    NextIntTopBits(third, 16);
    NextIntTopBits(third, 256);
    if version.IsOlderThan(V1_15) then
      (NextIntFrom(first, 16), NextIntFrom(second, 256), NextIntFrom(third, 16))
    else
      (NextIntFrom(first, 16), NextIntFrom(third, 256), NextIntFrom(second, 16))
  }

  /** The state at which attempt `i` begins: each attempt takes five draws. */
  function AttemptStart(s: Seed, i: nat): Seed
  {
    Advance(s, 5 * i)
  }

  /** Whether a replay found the observed dungeon, and the generator's state
      at the end. */
  datatype Replay = Replay(found: bool, state: Seed)

  /** Up to `attempts` dungeon attempts from state `s`, stopping at the
      first whose position is `target`. */
  function CanStartRun(version: McVersion, s: Seed, target: (int, int, int), attempts: nat): (r: Replay)
    ensures r.found ==> attempts > 0
    ensures !r.found ==> r.state == AttemptStart(s, attempts)
    decreases attempts
  {
    if attempts == 0 then Replay(false, s)
    else if AttemptDraw(version, s) == target then Replay(true, Advance(s, 3))
    else
      AttemptStartNext(s, attempts - 1);
      CanStartRun(version, Advance(s, 5), target, attempts - 1)
  }

  /** A replay succeeds exactly when some attempt below the limit draws the
      target; it then stops three draws into the first such attempt, and
      otherwise ends after five draws per attempt. */
  lemma {:induction false} CanStartRunFinds(version: McVersion, s: Seed, target: (int, int, int), attempts: nat)
    ensures CanStartRun(version, s, target, attempts).found
        <==> exists i :: 0 <= i < attempts && AttemptDraw(version, AttemptStart(s, i)) == target
    ensures !CanStartRun(version, s, target, attempts).found
        ==> CanStartRun(version, s, target, attempts).state == AttemptStart(s, attempts)
    ensures CanStartRun(version, s, target, attempts).found
        ==> exists i :: 0 <= i < attempts
              && AttemptDraw(version, AttemptStart(s, i)) == target
              && CanStartRun(version, s, target, attempts).state == Advance(AttemptStart(s, i), 3)
              && forall j :: 0 <= j < i ==> AttemptDraw(version, AttemptStart(s, j)) != target
    decreases attempts
  {
    assert AttemptStart(s, 0) == s;
    if attempts > 0 && AttemptDraw(version, s) != target {
      var next := Advance(s, 5);
      var r := CanStartRun(version, s, target, attempts);
      assert r == CanStartRun(version, next, target, attempts - 1);
      CanStartRunFinds(version, next, target, attempts - 1);
      if r.found {
        var i :| 0 <= i < attempts - 1
              && AttemptDraw(version, AttemptStart(next, i)) == target
              && r.state == Advance(AttemptStart(next, i), 3)
              && forall j :: 0 <= j < i ==> AttemptDraw(version, AttemptStart(next, j)) != target;
        AttemptStartNext(s, i);
        forall j | 0 <= j < i + 1 ensures AttemptDraw(version, AttemptStart(s, j)) != target {
          if j > 0 {
            AttemptStartNext(s, j - 1);
          }
        }
      } else {
        forall i | 0 <= i < attempts ensures AttemptDraw(version, AttemptStart(s, i)) != target {
          if i > 0 {
            AttemptStartNext(s, i - 1);
          }
        }
        AttemptStartNext(s, attempts - 1);
      }
    }
  }

  /** Attempt `i` after one failed attempt is attempt `i + 1`. */
  lemma AttemptStartNext(s: Seed, i: nat)
    ensures AttemptStart(Advance(s, 5), i) == AttemptStart(s, i + 1)
  {
    AdvanceAdd(s, 5, 5 * i);
  }

  // ---------------------------------------------------------------------
  // The reverser call list (onDataAdded)

  /** The three position draws, in the same version-dependent order as a
      dungeon attempt. */
  function PositionCalls(version: McVersion, x: int, y: int, z: int): (cs: seq<Call>)
    ensures |cs| == 3 && cs[0] == Exact(16, x)
    ensures Exact(256, y) in cs && Exact(16, z) in cs
    ensures forall i :: 0 <= i < |cs| ==> cs[i].Exact?
  {
    if version.IsOlderThan(V1_15) then [Exact(16, x), Exact(256, y), Exact(16, z)]
    else [Exact(16, x), Exact(16, z), Exact(256, y)]
  }

  /** The call one floor entry contributes: an exact 0 out of 4 for
      cobblestone, a deferred "not 0 out of 4" for mossy cobblestone,
      nothing otherwise. */
  function FloorCall(entry: int): seq<Call>
  {
    if entry == COBBLESTONE_CALL then [Exact(4, 0)]
    else if entry == MOSSY_COBBLESTONE_CALL then [Filter(4, 0)]
    else []
  }

  /** One call per cobblestone or mossy entry, in floor order. */
  function FloorConstraints(floor: seq<int>): (cs: seq<Call>)
    ensures |cs| <= |floor|
    ensures forall i :: 0 <= i < |cs| ==> cs[i] == Exact(4, 0) || cs[i] == Filter(4, 0)
  {
    if floor == [] then []
    else FloorConstraints(floor[..|floor| - 1]) + FloorCall(floor[|floor| - 1])
  }

  /** The whole call list: position, the two size draws, then the floor. */
  function DungeonCalls(version: McVersion, x: int, y: int, z: int, floor: seq<int>): (cs: seq<Call>)
    ensures |cs| == 4 + |FloorConstraints(floor)|
    ensures TotalDraws(cs[..4]) == 5
  {
    var cs := PositionCalls(version, x, y, z) + [Consume(2, 2)] + FloorConstraints(floor);
    HeadDraws(cs[..4]);
    cs
  }

  /** Three exact calls and the two size draws take the five draws of one
      dungeon attempt. */
  lemma HeadDraws(head: seq<Call>)
    requires |head| == 4 && head[0].Exact? && head[1].Exact? && head[2].Exact?
    requires head[3] == Consume(2, 2)
    ensures TotalDraws(head) == 5
  {
    var rest := head[3..];
    assert rest == [Consume(2, 2)] && rest[1..] == [];
    assert TotalDraws(rest) == 2;
    assert head[2..][1..] == rest;
    assert head[1..][1..] == head[2..];
    assert TotalDraws(head[1..]) == 4;
  }

  /** Bits of the state that the exact calls pin down. */
  function ExactBits(calls: seq<Call>): nat
    requires AllWellFormed(calls)
  {
    if calls == [] then 0
    else
      var last := calls[|calls| - 1];
      assert last.WellFormed();
      ExactBits(calls[..|calls| - 1]) + (if last.Exact? then Log2(last.bound) else 0)
  }

  lemma {:induction false} ExactBitsAppend(a: seq<Call>, b: seq<Call>)
    requires AllWellFormed(a) && AllWellFormed(b)
    ensures AllWellFormed(a + b)
    ensures ExactBits(a + b) == ExactBits(a) + ExactBits(b)
    decreases |b|
  {
    if b == [] {
      assert a + b == a;
    } else {
      var init := b[..|b| - 1];
      assert (a + b)[..|a + b| - 1] == a + init;
      ExactBitsAppend(a, init);
    }
  }

  /** Every floor constraint is well formed, and together they pin down two
      bits per cobblestone entry: exactly the constructor's score. */
  lemma {:induction false} FloorConstraintsBits(floor: seq<int>)
    ensures AllWellFormed(FloorConstraints(floor))
    ensures ExactBits(FloorConstraints(floor)) == 2 * CobblestoneCount(floor)
    decreases |floor|
  {
    if floor != [] {
      var init, last := floor[..|floor| - 1], floor[|floor| - 1];
      FloorConstraintsBits(init);
      assert Log2(4) == 2;
      assert ExactBits(FloorCall(last)) == if last == COBBLESTONE_CALL then 2 else 0 by {
        if last != COBBLESTONE_CALL && last != MOSSY_COBBLESTONE_CALL {
          assert FloorCall(last) == [];
        } else {
          assert FloorCall(last)[..0] == [];
        }
      }
      ExactBitsAppend(FloorConstraints(init), FloorCall(last));
    }
  }

  /** The position calls pin down 4 + 8 + 4 bits of the state. */
  lemma PositionCallsBits(version: McVersion, x: int, y: int, z: int)
    ensures AllWellFormed(PositionCalls(version, x, y, z))
    ensures ExactBits(PositionCalls(version, x, y, z)) == 16
  {
    assert IsTopBitsBound(16) && Log2(16) == 4;
    assert IsTopBitsBound(256) && Log2(256) == 8;
    if version.IsOlderThan(V1_15) {
      ExactBitsOfThree(16, x, 256, y, 16, z);
    } else {
      ExactBitsOfThree(16, x, 16, z, 256, y);
    }
  }

  /** Three exact calls pin down the bits of their three bounds. */
  lemma ExactBitsOfThree(b1: nat, v1: int, b2: nat, v2: int, b3: nat, v3: int)
    requires IsTopBitsBound(b1) && IsTopBitsBound(b2) && IsTopBitsBound(b3)
    ensures AllWellFormed([Exact(b1, v1), Exact(b2, v2), Exact(b3, v3)])
    ensures ExactBits([Exact(b1, v1), Exact(b2, v2), Exact(b3, v3)]) == Log2(b1) + Log2(b2) + Log2(b3)
  {
    var one, two := [Exact(b1, v1)], [Exact(b1, v1), Exact(b2, v2)];
    var calls := two + [Exact(b3, v3)];
    assert one[..0] == [];
    assert ExactBits(one) == Log2(b1);
    assert two[..1] == one;
    assert ExactBits(two) == Log2(b1) + Log2(b2);
    assert calls[..2] == two;
    assert ExactBits(calls) == ExactBits(two) + Log2(b3);
    assert calls == [Exact(b1, v1), Exact(b2, v2), Exact(b3, v3)];
  }

  /** The call list is well formed and pins down 16 position bits plus the
      floor score. */
  lemma DungeonCallsBits(version: McVersion, x: int, y: int, z: int, floor: seq<int>)
    ensures AllWellFormed(DungeonCalls(version, x, y, z, floor))
    ensures ExactBits(DungeonCalls(version, x, y, z, floor)) == 16 + 2 * CobblestoneCount(floor)
  {
    var pos := PositionCalls(version, x, y, z);
    var head := pos + [Consume(2, 2)];
    PositionCallsBits(version, x, y, z);
    assert Consume(2, 2).WellFormed();
    assert head[..|head| - 1] == pos;
    assert ExactBits(head) == 16;
    FloorConstraintsBits(floor);
    ExactBitsAppend(head, FloorConstraints(floor));
  }

  /** Three exact calls hold exactly when the three successive draws give
      the three values. */
  lemma SatisfiesThreeExact(b1: nat, v1: int, b2: nat, v2: int, b3: nat, v3: int, s: Seed)
    requires IsTopBitsBound(b1) && IsTopBitsBound(b2) && IsTopBitsBound(b3)
    ensures AllWellFormed([Exact(b1, v1), Exact(b2, v2), Exact(b3, v3)])
    ensures TotalDraws([Exact(b1, v1), Exact(b2, v2), Exact(b3, v3)]) == 3
    ensures Satisfies([Exact(b1, v1), Exact(b2, v2), Exact(b3, v3)], s)
        <==> NextIntFrom(s, b1) == v1 && NextIntFrom(Step(s), b2) == v2
             && NextIntFrom(Step(Step(s)), b3) == v3
  {
    var calls := [Exact(b1, v1), Exact(b2, v2), Exact(b3, v3)];
    var t, u := Step(s), Step(Step(s));
    SatisfiesExactFirst(b3, v3, [], u);
    assert [Exact(b3, v3)] + [] == [Exact(b3, v3)];
    SatisfiesExactFirst(b2, v2, [Exact(b3, v3)], t);
    assert [Exact(b2, v2)] + [Exact(b3, v3)] == calls[1..];
    SatisfiesExactFirst(b1, v1, calls[1..], s);
    assert [Exact(b1, v1)] + calls[1..] == calls;
    DrawsOfExacts(calls);
  }

  /** An exact call in front holds when the draw gives its value and the
      rest hold from the next state. */
  lemma SatisfiesExactFirst(b: nat, v: int, rest: seq<Call>, s: Seed)
    requires IsTopBitsBound(b) && AllWellFormed(rest)
    ensures AllWellFormed([Exact(b, v)] + rest)
    ensures Satisfies([Exact(b, v)] + rest, s) <==> NextIntFrom(s, b) == v && Satisfies(rest, Step(s))
  {
    var calls := [Exact(b, v)] + rest;
    assert calls[0] == Exact(b, v) && calls[1..] == rest;
  }

  /** Calls that are all exact draw once each. */
  lemma {:induction false} DrawsOfExacts(calls: seq<Call>)
    requires forall i :: 0 <= i < |calls| ==> calls[i].Exact?
    ensures TotalDraws(calls) == |calls|
    decreases |calls|
  {
    if calls != [] {
      DrawsOfExacts(calls[1..]);
    }
  }

  /** A state satisfies the position calls exactly when a dungeon attempt
      from it draws that position. */
  lemma PositionCallsMatchAttempt(version: McVersion, x: int, y: int, z: int, s: Seed)
    ensures AllWellFormed(PositionCalls(version, x, y, z))
    ensures TotalDraws(PositionCalls(version, x, y, z)) == 3
    ensures Satisfies(PositionCalls(version, x, y, z), s) <==> AttemptDraw(version, s) == (x, y, z)
  {
    assert IsTopBitsBound(16) && IsTopBitsBound(256);
    if version.IsOlderThan(V1_15) {
      SatisfiesThreeExact(16, x, 256, y, 16, z, s);
    } else {
      SatisfiesThreeExact(16, x, 16, z, 256, y, s);
    }
  }

  /** A seed that satisfies the dungeon's call list passes the first attempt
      of the replay check from that seed. */
  lemma SolvedSeedPassesFirstAttempt(version: McVersion, x: int, y: int, z: int, floor: seq<int>, d: Seed)
    requires AllWellFormed(DungeonCalls(version, x, y, z, floor))
    requires Satisfies(DungeonCalls(version, x, y, z, floor), d)
    ensures AttemptDraw(version, d) == (x, y, z)
  {
    var pos, rest := PositionCalls(version, x, y, z), [Consume(2, 2)] + FloorConstraints(floor);
    PositionCallsMatchAttempt(version, x, y, z, d);
    assert DungeonCalls(version, x, y, z, floor) == pos + rest;
    assert AllWellFormed(rest) by {
      forall i | 0 <= i < |rest| ensures rest[i].WellFormed() {
        assert rest[i] == (pos + rest)[|pos| + i];
      }
    }
    SatisfiesAppend(pos, rest, d);
  }

  // ---------------------------------------------------------------------
  // From a decorator seed to population seeds (onDataAdded)

  /** The decorator seed after `i` rewinds by `LCG.JAVA.combine(-5)`. */
  function Rewound(d: Seed, i: nat): (r: Seed)
    ensures i > 0 ==> NextSeed(JAVA_FIVE, r) == Rewound(d, i - 1)
  {
    if i == 0 then d
    else
      FiveAfterFailedDungeon(Rewound(d, i - 1));
      NextSeed(FAILED_DUNGEON, Rewound(d, i - 1))
  }

  /** Attempt `i` from the `i`-times rewound seed starts at the seed: the
      i-th candidate is the state at which the observed dungeon would have
      been attempt number `i`. */
  lemma {:induction false} RewoundIsAttemptStart(d: Seed, i: nat)
    ensures AttemptStart(Rewound(d, i), i) == d
    decreases i
  {
    if i > 0 {
      var back := Rewound(d, i);
      RewoundIsAttemptStart(d, i - 1);
      AdvanceFive(back);
      AdvanceAdd(back, 5, 5 * (i - 1));
      assert 5 + 5 * (i - 1) == 5 * i;
    }
  }

  /** One more rewind of the `i`-times rewound seed. */
  lemma RewoundNext(d: Seed, i: nat)
    ensures Rewound(d, i + 1) == NextSeed(FAILED_DUNGEON, Rewound(d, i))
  {
  }

  /** Rewinding `i` times undoes `i` dungeon attempts. */
  lemma {:induction false} RewoundUndoesAttempts(s: Seed, i: nat)
    ensures Rewound(AttemptStart(s, i), i) == s
    decreases i
  {
    if i > 0 {
      var ahead := Advance(s, 5);
      AdvanceAdd(s, 5, 5 * (i - 1));
      assert 5 + 5 * (i - 1) == 5 * i;
      assert AttemptStart(s, i) == AttemptStart(ahead, i - 1);
      RewoundUndoesAttempts(ahead, i - 1);
      FailedDungeonRewindsFive(s);
    }
  }

  /** `(decoratorSeed ^ multiplier) - salt`, in Java `long` arithmetic. */
  function PopulationCandidate(d: Seed, salt: Int64): (p: Int64)
    ensures (p + salt) % MODULUS == XorMultiplier(d)
  {
    SaltLow48(XorMultiplier(d), salt);
    Wrap64(XorMultiplier(d) - salt)
  }

  /** Java `long` wrap-around keeps the low 48 bits. */
  lemma Wrap64Low48(x: int)
    ensures Wrap64(x) % MODULUS == x % MODULUS
  {
    var q := (x - INT64_MIN) / TWO_POW_64;
    assert Wrap64(x) == x + (-q * 0x1_0000) * MODULUS;
    ModShift(x, -q * 0x1_0000);
  }

  /** Adding the salt back to `x - salt`, computed with Java `long`
      wrap-around, restores a 48-bit `x`. */
  lemma SaltLow48(x: Seed, salt: Int64)
    ensures (Wrap64(x - salt) + salt) % MODULUS == x
  {
    var c := Wrap64(x - salt);
    calc {
      (c + salt) % MODULUS;
      { ModAddLeft(c, salt); }
      (c % MODULUS + salt) % MODULUS;
      { Wrap64Low48(x - salt); }
      ((x - salt) % MODULUS + salt) % MODULUS;
      { ModAddLeft(x - salt, salt); }
      x;
    }
  }

  /** Candidate + salt has the low 48 bits `decoratorSeed ^ multiplier`. */
  lemma CandidatePlusSalt(d: Seed, salt: Int64)
    ensures (PopulationCandidate(d, salt) + salt) % MODULUS == XorMultiplier(d)
  {
    SaltLow48(XorMultiplier(d), salt);
  }

  /** Seeding a generator with candidate + salt (what setting the decorator
      seed does) gives back the decorator seed: the candidate is the
      inverse of the seeding. */
  lemma PopulationCandidateRoundTrip(d: Seed, salt: Int64)
    ensures Scramble(PopulationCandidate(d, salt) + salt) == d
  {
    CandidatePlusSalt(d, salt);
    ScrambleOfXored(d, PopulationCandidate(d, salt) + salt);
  }

  /** Subtracting the salt from the low 48 bits of population + salt, with
      Java `long` wrap-around, restores the population seed's low bits. */
  lemma UnsaltLow48(p: Int64, salt: Int64)
    ensures Wrap64((p + salt) % MODULUS - salt) % MODULUS == p % MODULUS
  {
    var low := (p + salt) % MODULUS;
    var unsalt: int := 0 - salt as int;
    Wrap64Low48(low - salt);
    ModAddLeft(p + salt, unsalt);
  }

  /** Conversely, from the state that seeding with population + salt
      produces, the candidate recovers the population seed's low 48 bits. */
  lemma PopulationCandidateRecovers(p: Int64, salt: Int64)
    ensures PopulationCandidate(Scramble(p + salt), salt) % MODULUS == p % MODULUS
  {
    var low := (p + salt) % MODULUS;
    XorMultiplierInvolution(low);
    UnsaltLow48(p, salt);
  }

  /** The population seeds tried for decorator seed `d`, in order: the
      observed dungeon may have been attempt 0, 1, ..., n - 1 of its chunk. */
  function Candidates(d: Seed, n: nat, salt: Int64): (cs: seq<Int64>)
    ensures |cs| == n
  {
    if n == 0 then [] else Candidates(d, n - 1, salt) + [PopulationCandidate(Rewound(d, n - 1), salt)]
  }

  /** Candidate `i` is the decorator seed rewound `i` attempts, unsalted. */
  lemma {:induction false} CandidatesAt(d: Seed, n: nat, salt: Int64, i: nat)
    requires i < n
    ensures Candidates(d, n, salt)[i] == PopulationCandidate(Rewound(d, i), salt)
    decreases n
  {
    if i < n - 1 {
      CandidatesAt(d, n - 1, salt, i);
    }
  }

  /** What the reverser returns for each candidate, concatenated in order. */
  function ReversedSeeds(cs: seq<Int64>, reverse: (Int64, Int32, Int32, McVersion) -> seq<Int64>,
                         x: Int32, z: Int32, mcVersion: McVersion): seq<Int64>
  {
    if cs == [] then []
    else ReversedSeeds(cs[..|cs| - 1], reverse, x, z, mcVersion) + reverse(cs[|cs| - 1], x, z, mcVersion)
  }

  /** A value is among the reversed seeds exactly when the reverser returned
      it for one of the candidates. */
  lemma {:induction false} ReversedSeedsMembers(cs: seq<Int64>,
                                                reverse: (Int64, Int32, Int32, McVersion) -> seq<Int64>,
                                                x: Int32, z: Int32, mcVersion: McVersion, v: Int64)
    ensures v in ReversedSeeds(cs, reverse, x, z, mcVersion)
        <==> exists i :: 0 <= i < |cs| && v in reverse(cs[i], x, z, mcVersion)
    decreases |cs|
  {
    if cs != [] {
      var init, last := cs[..|cs| - 1], cs[|cs| - 1];
      var front, back := ReversedSeeds(init, reverse, x, z, mcVersion), reverse(last, x, z, mcVersion);
      assert ReversedSeeds(cs, reverse, x, z, mcVersion) == front + back;
      ReversedSeedsMembers(init, reverse, x, z, mcVersion, v);
      if v in front + back {
        if v in front {
          var i :| 0 <= i < |init| && v in reverse(init[i], x, z, mcVersion);
          assert cs[i] == init[i];
        } else {
          assert v in reverse(cs[|cs| - 1], x, z, mcVersion);
        }
      }
      if exists i :: 0 <= i < |cs| && v in reverse(cs[i], x, z, mcVersion) {
        var i :| 0 <= i < |cs| && v in reverse(cs[i], x, z, mcVersion);
        if i < |cs| - 1 {
          assert init[i] == cs[i];
          assert v in front;
        } else {
          assert v in back;
        }
      }
    }
  }

  /** Appending one candidate appends what the reverser returns for it. */
  lemma ReversedSeedsSnoc(cs: seq<Int64>, c: Int64,
                          reverse: (Int64, Int32, Int32, McVersion) -> seq<Int64>,
                          x: Int32, z: Int32, mcVersion: McVersion)
    ensures ReversedSeeds(cs + [c], reverse, x, z, mcVersion)
         == ReversedSeeds(cs, reverse, x, z, mcVersion) + reverse(c, x, z, mcVersion)
  {
    assert (cs + [c])[..|cs|] == cs;
  }

  /** The structure seeds produced from each decorator seed in turn. */
  function SeedsFromDecoratorSeeds(ds: seq<Seed>, salt: Int64,
                                   reverse: (Int64, Int32, Int32, McVersion) -> seq<Int64>,
                                   x: Int32, z: Int32, mcVersion: McVersion): seq<Int64>
  {
    if ds == [] then []
    else SeedsFromDecoratorSeeds(ds[..|ds| - 1], salt, reverse, x, z, mcVersion)
         + ReversedSeeds(Candidates(ds[|ds| - 1], 8, salt), reverse, x, z, mcVersion)
  }

  /** `stream.limit(1)`. */
  function FirstOnly(stream: seq<Seed>): (r: seq<Seed>)
    ensures |r| <= 1
    ensures stream != [] ==> r == [stream[0]]
    ensures stream == [] ==> r == []
  {
    if stream == [] then [] else stream[..1]
  }

  /** Each candidate state the search tries passes the replay check for the
      observed dungeon, when the decorator seed satisfies the call list:
      from candidate i, attempt i starts at the decorator seed. */
  lemma EveryCandidatePassesCanStart(version: McVersion, x: int, y: int, z: int,
                                     floor: seq<int>, d: Seed, i: nat)
    requires AllWellFormed(DungeonCalls(version, x, y, z, floor))
    requires Satisfies(DungeonCalls(version, x, y, z, floor), d)
    requires i < 8
    ensures CanStartRun(version, Rewound(d, i), (x, y, z), 8).found
  {
    SolvedSeedPassesFirstAttempt(version, x, y, z, floor, d);
    RewoundIsAttemptStart(d, i);
    assert AttemptDraw(version, AttemptStart(Rewound(d, i), i)) == (x, y, z);
    CanStartRunFinds(version, Rewound(d, i), (x, y, z), 8);
  }

  /** Replaying from the state seeded with candidate + salt is replaying
      from the state the candidate was made from; with the lemma above,
      every population candidate passes canStart. */
  lemma SeededCandidateReplays(version: McVersion, s: Seed, salt: Int64, target: (int, int, int))
    ensures CanStartRun(version, Scramble(PopulationCandidate(s, salt) + salt), target, 8)
         == CanStartRun(version, s, target, 8)
  {
    PopulationCandidateRoundTrip(s, salt);
  }

  // ---------------------------------------------------------------------
  // The observation

  /** `Dungeon.Data`: one observed dungeon. */
  class Data {
    const feature: Dungeon
    const chunkX: ChunkIndex
    const chunkZ: ChunkIndex
    const biome: Biome
    const offsetX: int
    const blockY: Int32
    const offsetZ: int
    const floorCalls: Option<seq<Int32>>
    var bitsCount: nat

    /** Splits the block coordinates into chunk and in-chunk offset, and
        scores the floor at two bits per cobblestone entry. */
    constructor (feature: Dungeon, blockX: Int32, blockY: Int32, blockZ: Int32,
                 floorCalls: Option<seq<Int32>>, biome: Biome)
      ensures this.feature == feature && this.biome == biome
      ensures chunkX == ChunkCoord(blockX) && chunkZ == ChunkCoord(blockZ)
      ensures offsetX == InChunkOffset(blockX) && offsetZ == InChunkOffset(blockZ)
      ensures this.blockY == blockY && this.floorCalls == floorCalls
      ensures bitsCount == FloorBits(floorCalls)
    {
      this.feature := feature;
      chunkX := ChunkCoord(blockX);
      chunkZ := ChunkCoord(blockZ);
      this.biome := biome;
      offsetX := InChunkOffset(blockX);
      this.blockY := blockY;
      offsetZ := InChunkOffset(blockZ);
      this.floorCalls := floorCalls;
      bitsCount := 0;
      new;
      if floorCalls.Some? {
        var floor := floorCalls.value;
        for i := 0 to |floor|
          invariant bitsCount == 2 * CobblestoneCount(floor[..i])
        {
          assert floor[..i + 1][..i] == floor[..i];
          bitsCount := bitsCount + (if floor[i] == COBBLESTONE_CALL then 2 else 0);
        }
        assert floor[..|floor|] == floor;
      }
    }

    /** The floor is used when its score lies in [26, 48]: between 13 and 24
        cobblestone entries. */
    predicate UsesFloor()
      reads this
      ensures bitsCount == FloorBits(floorCalls)
          ==> (UsesFloor() <==> floorCalls.Some? && 13 <= CobblestoneCount(floorCalls.value) <= 24)
    {
      MIN_FLOOR_BITS <= bitsCount <= MAX_FLOOR_BITS
    }

    /** The position a replay must draw. */
    function Target(): (int, int, int)
    {
      (offsetX, blockY, offsetZ)
    }

    /** Whether `onDataAdded` gets past its three early exits, given the
        structure seeds recorded so far. */
    predicate Searches(recorded: Option<seq<Int64>>)
      reads this
    {
      floorCalls.Some? && UsesFloor() && recorded.None?
    }

    /** The call list `onDataAdded` hands the reverser. */
    function SearchCalls(): seq<Call>
      requires floorCalls.Some?
    {
      DungeonCalls(feature.version, offsetX, blockY, offsetZ, floorCalls.value)
    }

    /** `onDataAdded`: pokes STRUCTURES; unless the floor is missing or not
        informative, or structure seeds are already recorded, asks the
        reverser for the first decorator seed matching the observation and,
        if there is one, records the structure seeds found from its eight
        candidates and pokes BIOMES. */
    method OnDataAdded(tm: TimeMachine, solve: seq<Call> -> seq<Seed>,
                       reverse: (Int64, Int32, Int32, McVersion) -> seq<Int64>,
                       mcVersion: McVersion)
      modifies tm
      ensures var success := Searches(old(tm.structureSeeds)) && solve(SearchCalls()) != [];
        && tm.pokes == old(tm.pokes) + [Structures] + (if success then [Biomes] else [])
        && tm.phase == (if success then MaxPhase(MaxPhase(old(tm.phase), Structures), Biomes)
                        else MaxPhase(old(tm.phase), Structures))
        && tm.structureSeeds
           == if success
              then Some(ReversedSeeds(Candidates(solve(SearchCalls())[0], 8, feature.salt(biome)),
                                      reverse, chunkX * 16, chunkZ * 16, mcVersion))
              else old(tm.structureSeeds)
    {
      tm.Poke(Structures);
      if floorCalls.None? || !UsesFloor() {
        return;
      }
      if tm.structureSeeds.Some? {
        return;
      }

      var device := RecordDungeonCalls(feature.version, offsetX, blockY, offsetZ, floorCalls.value);
      var decoratorSeeds := FirstOnly(solve(device.calls));
      if decoratorSeeds == [] {
        return;
      }

      tm.structureSeeds := Some([]);
      var salt := feature.salt(biome);
      var x, z := chunkX * 16, chunkZ * 16;
      for k := 0 to |decoratorSeeds|
        invariant tm.structureSeeds
               == Some(SeedsFromDecoratorSeeds(decoratorSeeds[..k], salt, reverse, x, z, mcVersion))
        invariant tm.pokes == old(tm.pokes) + [Structures]
        invariant tm.phase == MaxPhase(old(tm.phase), Structures)
      {
        RecordStructureSeeds(tm, decoratorSeeds[k], salt, reverse, x, z, mcVersion);
        assert decoratorSeeds[..k + 1][..k] == decoratorSeeds[..k];
      }
      assert decoratorSeeds[..|decoratorSeeds|] == decoratorSeeds;
      assert decoratorSeeds == [solve(SearchCalls())[0]];
      assert decoratorSeeds[..0] == [];
      ghost var recorded := ReversedSeeds(Candidates(decoratorSeeds[0], 8, salt), reverse, x, z, mcVersion);
      assert SeedsFromDecoratorSeeds(decoratorSeeds, salt, reverse, x, z, mcVersion) == [] + recorded;
      assert [] + recorded == recorded;
      assert tm.structureSeeds == Some(recorded);

      tm.Poke(Biomes);
    }
  }

  /** The device `onDataAdded` fills: the position calls in the version's
      order, the two size draws, then one call per cobblestone or mossy
      floor entry. */
  method RecordDungeonCalls(version: McVersion, x: int, y: int, z: int, floor: seq<Int32>)
    returns (device: ReverserDevice)
    ensures fresh(device)
    ensures device.calls == DungeonCalls(version, x, y, z, floor)
  {
    device := new ReverserDevice();
    RecordPosition(device, version, x, y, z);
    device.AddCall(Consume(2, 2));  // the two size draws
    RecordFloor(device, floor);
  }

  /** One call per cobblestone or mossy floor entry, in floor order. */
  method RecordFloor(device: ReverserDevice, floor: seq<Int32>)
    modifies device
    ensures device.calls == old(device.calls) + FloorConstraints(floor)
  {
    ghost var head := device.calls;
    assert head + FloorConstraints(floor[..0]) == head;
    for i := 0 to |floor|
      invariant device.calls == head + FloorConstraints(floor[..i])
    {
      FloorConstraintsSnoc(floor, i);
      ghost var before := device.calls;
      if floor[i] == COBBLESTONE_CALL {
        device.AddCall(Exact(4, 0));
      } else if floor[i] == MOSSY_COBBLESTONE_CALL {
        device.AddCall(Filter(4, 0));  // checked after the search
      }
      assert device.calls == before + FloorCall(floor[i]);
    }
    assert floor[..|floor|] == floor;
  }

  /** The floor calls of one more entry. */
  lemma FloorConstraintsSnoc(floor: seq<int>, i: nat)
    requires i < |floor|
    ensures FloorConstraints(floor[..i + 1]) == FloorConstraints(floor[..i]) + FloorCall(floor[i])
  {
    assert floor[..i + 1][..i] == floor[..i];
  }

  /** The three position calls, in the version's draw order. */
  method RecordPosition(device: ReverserDevice, version: McVersion, x: int, y: int, z: int)
    modifies device
    ensures device.calls == old(device.calls) + PositionCalls(version, x, y, z)
  {
    if version.IsOlderThan(V1_15) {
      device.AddCall(Exact(16, x));
      device.AddCall(Exact(256, y));
      device.AddCall(Exact(16, z));
    } else {
      device.AddCall(Exact(16, x));
      device.AddCall(Exact(16, z));
      device.AddCall(Exact(256, y));
    }
  }

  /** The body of the loop over decorator seeds: for eight candidates,
      rewinding one failed attempt after each, appends what the reverser
      returns for the unsalted population seed. */
  method RecordStructureSeeds(tm: TimeMachine, d: Seed, salt: Int64,
                              reverse: (Int64, Int32, Int32, McVersion) -> seq<Int64>,
                              x: Int32, z: Int32, mcVersion: McVersion)
    requires tm.structureSeeds.Some?
    modifies tm
    ensures tm.structureSeeds
         == Some(old(tm.structureSeeds.value) + ReversedSeeds(Candidates(d, 8, salt), reverse, x, z, mcVersion))
    ensures tm.pokes == old(tm.pokes) && tm.phase == old(tm.phase)
  {
    ghost var before := tm.structureSeeds.value;
    assert before + [] == before;
    var decoratorSeed := d;
    for i := 0 to 8
      invariant decoratorSeed == Rewound(d, i)
      invariant tm.structureSeeds
             == Some(before + ReversedSeeds(Candidates(d, i, salt), reverse, x, z, mcVersion))
      invariant tm.pokes == old(tm.pokes) && tm.phase == old(tm.phase)
    {
      var found := reverse(PopulationCandidate(decoratorSeed, salt), x, z, mcVersion);
      CandidatesSnoc(before, d, i, salt, reverse, x, z, mcVersion);
      AddStructureSeeds(tm, found);
      RewoundNext(d, i);
      decoratorSeed := NextSeed(FAILED_DUNGEON, decoratorSeed);
    }
  }

  /** Trying candidate `i` appends what the reverser returns for it. */
  lemma CandidatesSnoc(before: seq<Int64>, d: Seed, i: nat, salt: Int64,
                       reverse: (Int64, Int32, Int32, McVersion) -> seq<Int64>,
                       x: Int32, z: Int32, mcVersion: McVersion)
    ensures before + ReversedSeeds(Candidates(d, i + 1, salt), reverse, x, z, mcVersion)
         == (before + ReversedSeeds(Candidates(d, i, salt), reverse, x, z, mcVersion))
            + reverse(PopulationCandidate(Rewound(d, i), salt), x, z, mcVersion)
  {
    var tried := Candidates(d, i, salt);
    ReversedSeedsSnoc(tried, PopulationCandidate(Rewound(d, i), salt), reverse, x, z, mcVersion);
  }

  /** `forEach(structureSeeds::add)`: appends the reverser's answers one by
      one. */
  method AddStructureSeeds(tm: TimeMachine, found: seq<Int64>)
    requires tm.structureSeeds.Some?
    modifies tm
    ensures tm.structureSeeds == Some(old(tm.structureSeeds.value) + found)
    ensures tm.pokes == old(tm.pokes) && tm.phase == old(tm.phase)
  {
    ghost var done := tm.structureSeeds.value;
    assert done + found[..0] == done;
    for j := 0 to |found|
      invariant tm.structureSeeds == Some(done + found[..j])
      invariant tm.pokes == old(tm.pokes) && tm.phase == old(tm.phase)
    {
      assert done + found[..j + 1] == (done + found[..j]) + [found[j]];
      tm.structureSeeds := Some(tm.structureSeeds.value + [found[j]]);
    }
    assert done + found[..|found|] == done + found;
  }

  /** `canStart`: replays up to eight dungeon attempts from the generator's
      current state (its seeding by the base decorator is not part of this
      model) and reports whether one of them lands on the observation. */
  method CanStart(feature: Dungeon, data: Data, rand: ChunkRand) returns (r: bool)
    modifies rand
    ensures Replay(r, rand.seed) == CanStartRun(feature.version, old(rand.seed), data.Target(), 8)
  {
    ghost var target := data.Target();
    for i := 0 to 8
      invariant CanStartRun(feature.version, old(rand.seed), target, 8)
             == CanStartRun(feature.version, rand.seed, target, 8 - i)
    {
      ghost var s := rand.seed;
      var x, y, z := DrawPosition(feature.version, rand);

      if y == data.blockY && x == data.offsetX && z == data.offsetZ {
        return true;
      }

      var _ := rand.NextInt(2);
      var _ := rand.NextInt(2);
      assert rand.seed == Advance(s, 5) by {
        AdvanceAdd(s, 3, 2);
      }
    }
    return false;
  }

  /** The three position draws of one attempt, in the version's order. */
  method DrawPosition(version: McVersion, rand: ChunkRand) returns (x: int, y: int, z: int)
    modifies rand
    ensures (x, y, z) == AttemptDraw(version, old(rand.seed))
    ensures rand.seed == Advance(old(rand.seed), 3)
  {
    if version.IsOlderThan(V1_15) {
      x := rand.NextInt(16);
      y := rand.NextInt(256);
      z := rand.NextInt(16);
    } else {
      x := rand.NextInt(16);
      z := rand.NextInt(16);
      y := rand.NextInt(256);
    }
  }
}
