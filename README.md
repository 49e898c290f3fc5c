# Dungeon decorator of SeedCracker, in Dafny

This project models the dungeon decorator of SeedCracker: the code that turns
one observed dungeon into candidate structure seeds of a Minecraft world.

The decorator does four things:

- **Scoring the observation.** `Dungeon.Data` splits the dungeon's block
  coordinates into a chunk and an in-chunk offset, and scores the observed
  floor at two bits per cobblestone entry. `usesFloor` accepts a score
  between 26 and 48.
- **Replaying attempts.** `canStart` replays up to eight dungeon attempts of
  a chunk's generator. It reports whether one of them draws the observed
  position. Attempts draw x, y, z before 1.15 and x, z, y from 1.15 on, and
  each failed attempt takes two more draws.
- **Searching.** `onDataAdded` builds the reverser's call list: the position
  draws, two skipped size draws, then one call per cobblestone or mossy
  floor entry. It takes the first decorator seed the solver yields, and
  tries eight population-seed candidates from it. Between candidates it
  rewinds one failed attempt with `LCG.JAVA.combine(-5)`. It records every
  structure seed the population reverser returns, and pokes the time
  machine.
- **Biome check.** `isValidBiome` decides in which biomes an observation is
  accepted.

The model has five modules:

- `JavaTypes`: nullable references and Java `int`/`long`, with explicit
  64-bit wrap-around.
- `JavaRandom`: java.util.Random's 48-bit LCG, its affine-map algebra
  (composition and repetition), power-of-two `nextInt`, `setSeed`'s XOR
  with the multiplier, and a `ChunkRand` class.
- `Reverser`: the reverser's calls, what it means for a state to satisfy
  them, and the `ReverserDevice` class that records them.
- `Storage`: the `TimeMachine` class with its phase and its nullable list of
  structure seeds.
- `Dungeon`: the core.

The solver behind `streamSeeds` and `reversePopulationSeed` are parameters
of `OnDataAdded`. The solver is a function from call lists to the sequence
of decorator seeds it streams. The population reverser is a function from a
candidate, a block position and a version to a sequence of structure seeds.

## Model

| member | source | states |
|---|---|---|
| Dungeon.IsValidBiome | src/main/java/kaptainwutax/seedcracker/cracker/decorator/Dungeon.java:70-75 | as written, the guard holds exactly for THE_END |
| Dungeon.IsValidBiomeCorrected | src/main/java/kaptainwutax/seedcracker/cracker/decorator/Dungeon.java:70-75 | with the last conjunct as `!=`, the guard holds exactly for the biomes it does not name (the overworld) |
| Dungeon.IsValidBiomeRejectsOverworld | src/main/java/kaptainwutax/seedcracker/cracker/decorator/Dungeon.java:70-75 | the guard as written rejects every overworld biome and accepts THE_END; the corrected one does the opposite |
| Dungeon.ChunkCoord | src/main/java/kaptainwutax/seedcracker/cracker/decorator/Dungeon.java:95 | `block >> 4` is the chunk whose 16 blocks contain the block, negative coordinates included |
| Dungeon.InChunkOffset | src/main/java/kaptainwutax/seedcracker/cracker/decorator/Dungeon.java:96-98 | `block & 15` lies in [0, 16), and chunk * 16 + offset gives the block back |
| Dungeon.CobblestoneCountIsMultiplicity | src/main/java/kaptainwutax/seedcracker/cracker/decorator/Dungeon.java:102-106 | the counted entries are exactly the occurrences of COBBLESTONE_CALL, in any order |
| Dungeon.Data.constructor | src/main/java/kaptainwutax/seedcracker/cracker/decorator/Dungeon.java:94-107 | fields hold chunk, offsets, y, floor and biome; the loop leaves a score of 2 per cobblestone entry, 0 without a floor |
| Dungeon.Data.UsesFloor | src/main/java/kaptainwutax/seedcracker/cracker/decorator/Dungeon.java:109-111 | for a constructed observation, the floor is used iff it was observed and has 13 to 24 cobblestone entries |
| Dungeon.McVersion.IsOlderThan | src/main/java/kaptainwutax/seedcracker/cracker/decorator/Dungeon.java:48 | `isOlderThan(v1_15)`: a version is never older than itself |
| Dungeon.IsOlderThanTotal | src/main/java/kaptainwutax/seedcracker/cracker/decorator/Dungeon.java:122 | release order is a strict total order: never both ways, distinct versions are ordered, and it is transitive |
| Dungeon.AttemptDraw | src/main/java/kaptainwutax/seedcracker/cracker/decorator/Dungeon.java:48-56 | one attempt's version-ordered position draws lie in [0, 16) x [0, 256) x [0, 16) |
| Dungeon.CanStartRun | src/main/java/kaptainwutax/seedcracker/cracker/decorator/Dungeon.java:45-66 | the pure replay of the loop: success needs at least one attempt, and a failed replay has taken 5 draws per attempt |
| Dungeon.CanStartRunFinds | src/main/java/kaptainwutax/seedcracker/cracker/decorator/Dungeon.java:45-66 | a replay succeeds iff some attempt below the limit draws the target; on success it stops 3 draws into the first such attempt; on failure it has taken 5 draws per attempt |
| Dungeon.CanStart | src/main/java/kaptainwutax/seedcracker/cracker/decorator/Dungeon.java:41-67 | the loop's result and final generator state are those of the eight-attempt replay from the initial state |
| Dungeon.DrawPosition | src/main/java/kaptainwutax/seedcracker/cracker/decorator/Dungeon.java:48-56 | returns the version-ordered position of one attempt and advances the generator three draws |
| JavaRandom.ChunkRand.NextInt | src/main/java/kaptainwutax/seedcracker/cracker/decorator/Dungeon.java:49-55 | one draw: returns nextInt of the current state and moves the state one LCG step |
| JavaRandom.NextIntTopBits | src/main/java/kaptainwutax/seedcracker/cracker/decorator/Dungeon.java:49-55 | for a bound 2^k (k <= 31), nextInt is the top k bits of the next 48-bit state, so lies in [0, bound) |
| Dungeon.RecordDungeonCalls | src/main/java/kaptainwutax/seedcracker/cracker/decorator/Dungeon.java:120-141 | a fresh device holds the position calls, the two size draws, then one call per cobblestone or mossy entry, in floor order |
| Dungeon.PositionCalls | src/main/java/kaptainwutax/seedcracker/cracker/decorator/Dungeon.java:122-130 | three exact calls: x out of 16 first, then y out of 256 and z out of 16 in the version's order |
| Dungeon.FloorConstraints | src/main/java/kaptainwutax/seedcracker/cracker/decorator/Dungeon.java:134-141 | at most one call per floor entry, each either exactly 0 out of 4 or not 0 out of 4 |
| Dungeon.DungeonCalls | src/main/java/kaptainwutax/seedcracker/cracker/decorator/Dungeon.java:122-141 | the call list is its four head calls plus the floor calls, and the head takes the five draws of one dungeon attempt |
| Dungeon.RecordFloor | src/main/java/kaptainwutax/seedcracker/cracker/decorator/Dungeon.java:134-141 | the loop appends the floor calls, in floor order, after those already recorded |
| Dungeon.RecordPosition | src/main/java/kaptainwutax/seedcracker/cracker/decorator/Dungeon.java:122-130 | appends the three exact position calls in the version's draw order |
| Reverser.ReverserDevice.AddCall | src/main/java/kaptainwutax/seedcracker/cracker/decorator/Dungeon.java:123-139 | appends one call after those already recorded |
| Dungeon.FloorConstraintsBits | src/main/java/kaptainwutax/seedcracker/cracker/decorator/Dungeon.java:134-141 | the floor calls are well formed and pin down exactly the constructor's score: 2 bits per cobblestone entry |
| Dungeon.PositionCallsBits | src/main/java/kaptainwutax/seedcracker/cracker/decorator/Dungeon.java:122-130 | the position calls pin down 4 + 8 + 4 bits in both orders |
| Dungeon.DungeonCallsBits | src/main/java/kaptainwutax/seedcracker/cracker/decorator/Dungeon.java:122-141 | the whole call list is well formed and pins down 16 position bits plus the constructor's floor score |
| Reverser.SatisfiesAppend | src/main/java/kaptainwutax/seedcracker/cracker/decorator/Dungeon.java:120-141 | a state satisfies a + b iff it satisfies a and the state after a's draws satisfies b |
| Dungeon.PositionCallsMatchAttempt | src/main/java/kaptainwutax/seedcracker/cracker/decorator/Dungeon.java:122-130 | a state satisfies the position calls iff a dungeon attempt from it (the drawing in canStart) draws that position |
| Dungeon.SolvedSeedPassesFirstAttempt | src/main/java/kaptainwutax/seedcracker/cracker/decorator/Dungeon.java:120-143 | a decorator seed satisfying the call list draws the observed position in the first attempt |
| Dungeon.FirstOnly | src/main/java/kaptainwutax/seedcracker/cracker/decorator/Dungeon.java:143-148 | `limit(1)` keeps the first solution if there is one, and nothing otherwise |
| JavaRandom.CombineAdvances | src/main/java/kaptainwutax/seedcracker/cracker/decorator/Dungeon.java:151 | `combine(n)` of the Java LCG advances any state by exactly n draws |
| JavaRandom.FailedDungeonRewindsFive | src/main/java/kaptainwutax/seedcracker/cracker/decorator/Dungeon.java:151 | the `combine(-5)` step undoes five draws and is undone by five draws |
| Dungeon.Rewound | src/main/java/kaptainwutax/seedcracker/cracker/decorator/Dungeon.java:151-163 | the decorator seed after i `combine(-5)` steps of lines 151 and 162; five draws from it give the seed rewound i - 1 times |
| Dungeon.RewoundIsAttemptStart | src/main/java/kaptainwutax/seedcracker/cracker/decorator/Dungeon.java:151-163 | from the seed rewound i times, attempt i starts at the decorator seed |
| Dungeon.RewoundUndoesAttempts | src/main/java/kaptainwutax/seedcracker/cracker/decorator/Dungeon.java:151-163 | rewinding i times the start of attempt i gives the state the attempts started from |
| Dungeon.EveryCandidatePassesCanStart | src/main/java/kaptainwutax/seedcracker/cracker/decorator/Dungeon.java:153-163 | each of the eight states tried from a solved decorator seed passes the eight-attempt replay of canStart |
| JavaRandom.XorMultiplierInvolution | src/main/java/kaptainwutax/seedcracker/cracker/decorator/Dungeon.java:155 | XOR with the multiplier, applied twice, gives the 48-bit state back |
| Dungeon.PopulationCandidateRoundTrip | src/main/java/kaptainwutax/seedcracker/cracker/decorator/Dungeon.java:155-156 | seeding a generator with candidate + salt gives back the decorator state the candidate came from |
| Dungeon.PopulationCandidateRecovers | src/main/java/kaptainwutax/seedcracker/cracker/decorator/Dungeon.java:155-156 | the candidate from the state that seeding with p + salt yields has p's low 48 bits |
| Dungeon.SeededCandidateReplays | src/main/java/kaptainwutax/seedcracker/cracker/decorator/Dungeon.java:155-156 | replaying from the generator seeded with candidate + salt is replaying from the state the candidate came from |
| Dungeon.PopulationCandidate | src/main/java/kaptainwutax/seedcracker/cracker/decorator/Dungeon.java:155-156 | `(decoratorSeed ^ multiplier) - salt` in `long` arithmetic: adding the salt back gives `decoratorSeed ^ multiplier` in the low 48 bits |
| JavaTypes.Wrap64 | src/main/java/kaptainwutax/seedcracker/cracker/decorator/Dungeon.java:155-156 | Java `long` subtraction yields the value congruent modulo 2^64 in the `long` range, unchanged when in range |
| Dungeon.CandidatesAt | src/main/java/kaptainwutax/seedcracker/cracker/decorator/Dungeon.java:153-163 | candidate i is the decorator seed rewound i times, XOR-ed with the multiplier and unsalted |
| Dungeon.ReversedSeedsMembers | src/main/java/kaptainwutax/seedcracker/cracker/decorator/Dungeon.java:155-160 | a seed is recorded iff the population reverser returned it for one of the candidates |
| Dungeon.AddStructureSeeds | src/main/java/kaptainwutax/seedcracker/cracker/decorator/Dungeon.java:157-160 | appends the reverser's answers, in order, to the recorded structure seeds; nothing else changes |
| Dungeon.RecordStructureSeeds | src/main/java/kaptainwutax/seedcracker/cracker/decorator/Dungeon.java:154-163 | the eight-candidate loop appends the reverser's answers for candidates 0..7 in order; phase and pokes are unchanged |
| Storage.TimeMachine.Poke | src/main/java/kaptainwutax/seedcracker/cracker/decorator/Dungeon.java:114 | the phase becomes the later of the old phase and the poked one; the poke is logged; structure seeds are unchanged |
| Dungeon.Data.OnDataAdded | src/main/java/kaptainwutax/seedcracker/cracker/decorator/Dungeon.java:113-167 | always pokes STRUCTURES; without a used floor, with seeds already recorded, or with no solution, nothing else changes; otherwise the seeds become the reverser's answers for the eight candidates of the first solution, and BIOMES is poked |

## Left out

- The solver behind `streamSeeds` and `reversePopulationSeed` are parameters, not models. Their internals (lattice reduction, population reversal) are outside the dungeon decorator. The solver is a function to a sequence, so a `Set` of at most one element is modelled as a sequence of at most one.
- The filter call's deferred brute-force check is modelled only by its meaning (`Satisfies` requires the drawn value to differ from 0). How the solver schedules it is not modelled.
- `super.canStart`, which seeds the generator with the decorator seed of a structure seed and chunk, is not modelled. `CanStart` starts from whatever state the generator holds.
- The configuration tables (`CONFIGS`, `VersionMap`, `getAsOf`) and the salts they hold are not modelled. A feature's salt per biome is a function field of `Dungeon`.
- `getName`, `at`, the `Vec3i size` field and logging are left out because they have no effect on the decorator's results.
- Dungeon.Data.constructor: `bitsCount` is a Java `float`, modelled as a natural number. The float sum of 2.0s is exact up to 2^25 and then stops growing (2^25 + 2 rounds back to 2^25), so the model differs from the field once a floor has more than 2^24 cobblestone entries. `usesFloor` gives the same answer either way, since both values are far above 48.
- Dungeon.Data.constructor: the floor array is kept by reference in the source and read again in `onDataAdded`. The model keeps an immutable sequence, so it treats the array as never changed after construction. If a caller changed it, the score and the call list could disagree, and the model does not capture that.
- A feature built without a version (the constructor taking only a configuration) is not modelled. `canStart` and `onDataAdded` call `isOlderThan` on that version without a check, and what happens then depends on the base class, which is not part of this model. `Dungeon.version` is always present.
- JavaRandom.ChunkRand.NextInt: only power-of-two bounds are modelled. Every bound in the decorator is 2, 4, 16 or 256, so the rejection-sampling branch of `nextInt` never runs here.
- `LCG.combine` by binary exponentiation is not modelled. `Combine` is its repeated-composition meaning, and `FAILED_DUNGEON` carries the coefficients of `combine(-5)` as constants, proved to invert five draws.
- `DataStorage` is reduced to its time machine. Other listeners a poke triggers are not modelled.
- Storage.TimeMachine.Poke: what happens on reaching a phase (the other searches it starts) is outside the decorator.
- A combined lemma that every population candidate passes `canStart` after seeding is split in two: `EveryCandidatePassesCanStart` and `SeededCandidateReplays`.

## Findings

| source | as written | input that shows it | evidently intended | confidence | as-written member | corrected member |
|---|---|---|---|---|---|---|
| src/main/java/kaptainwutax/seedcracker/cracker/decorator/Dungeon.java:70-75 | the last conjunct is `biome == THE_END`, so the guard holds only for THE_END and the other ten conjuncts are redundant | any overworld biome, such as PLAINS, is rejected, and THE_END, where dungeons do not generate, is accepted | `biome != THE_END`: accept every biome outside the Nether, the End and the void | high (not executed) | Dungeon.IsValidBiome, Dungeon.IsValidBiomeRejectsOverworld | Dungeon.IsValidBiomeCorrected |
