# hayahash: a verified model

hayahash is a 64- and 128-bit hash for byte strings of any length. The repository spells the same digest many
times: a C header with straight-line tiers, a two-round loop, an outlined two-block bulk loop and a vector-shaped
block; compact ports; a BigInt engine; and a streaming state that must return the one-shot digest for every split
of its input. This project models those spellings in Dafny, proves each of them equal to one reference walk, and
proves the algebraic claims the design rests on.

How it is laid out, from the words up:

- `Powers`, `Words`, `Rotations`, `Bijections`: 64-bit words as natural numbers below 2^64 with the few operations
  the hash uses (xor, wrapping add and multiply, rotate, shift, little-endian load), the laws they obey, and an
  explicit inverse for every single-word step. Xor works bit by bit; rotations and shifts by n are n one-bit steps,
  and `Rotations` proves them equal to the shift-and-or form and to the quotient by a power of two.
- `Machine`: reading words as `bv64` vectors takes add, subtract, multiply, xor, or, the two shifts, the rotation and
  the little-endian load to the vector operation and loses no word, so the numbers compute what the registers compute.
  A vector shift by n is written there as n vector shifts by one.
- `Reference`: the digest as a recursive function of the seed and the bytes, and the fact that whole blocks may be
  absorbed first and forgotten. Nothing in it is a loop; all loops below are proved against it.
- `ClosedForms`, `KnownAnswers`, `LongAnswers`: the operations as plain arithmetic on numerals, and with it the
  repository's published digests proved of the reference, one message for each path. They tie every constant, shift
  amount and offset of the reference to the released digest series.
- `OneShot`: the compact body of the Rust and Go ports (inline bulk loop, four-lane loop, tail). This is also the
  shape the C header takes under WebAssembly.
- `Dispatch`: the other C shapes of the 64-bit entry point. A `Shape` says whether the build has tiers and which bulk
  loop it has; every shape returns the reference digest.
- `WideDispatch`: the 128-bit entry point, whose tiers, mid loops and long body are separate texts in the header and
  separate methods here. The text of the bulk loop (one macro in the header), of wall and tail, and the short path are
  shared.
- `Streaming`: the buffered state machine. Its invariant ties the lanes to the block fold of a prefix of the bytes
  absorbed so far and the buffer to the rest.
- `JavaHasher`, `JsStream`, `MapHasher`: the same machine over 32-bit signed indices with the range check of
  `update(data, offset, length)`, over masked BigInts, and the inline-then-spill hasher for Rust's collections.
- `BigInts`, `PureEngine`: the BigInt helpers with their deferred masks, and the BigInt engine. The operands of an
  xor or a rotation have the type of integers below 2^64, so verification itself includes that no unmasked value
  meets one; sums that feed a mask are plain natural numbers.
- `Finalizers`, `ShortPath`, `Separation`, `LaneWalks`: inverses of the mixers and what follows from them - the short
  path as a permutation, differences that cannot collide, lanes as bijections of the seed.
- `WordWalk`, `AbsorbTrace`: the long walk as a function of its loads alone, then of the values it absorbs; which bytes
  are loaded how often; the message read back from those values.
- `Channels`: the differences that do pass through a lane, and how long a displaced one takes to become free again.
- `OutputLines`, `SeedText`, `Arguments`: hayasum's output lines, seed parser and argument parser, with strtoull
  modelled after section 7.22.1.4 of ISO/IEC 9899:2011.

Methods that update state or run a loop are stated against functions; the lemmas are about those functions. A `hide`
statement at the top of a body only tells the verifier which definitions that body does not look into.

Four statements come out sharper than the prose they formalise:

- Attached and separate option values are interchangeable exactly when the short form is not given an empty value:
  `-s` followed by an empty attachment is just `-s`, and takes the next argument (`Arguments.FormsInterchangeable`).
- The `--` before the operands may be left out exactly when the first operand does not look like an option
  (`Arguments.CommandLineRoundTrip`).
- The lanes take the stripes through the chained values alone, except in two places: the checkpoint of lane 0 after
  each block and the wall take a stripe raw (`AbsorbTrace.SettledTakesTrace`).
- A byte of a message above 16 bytes is loaded twice exactly when it lies between the start of the last 16 bytes and
  the end of the forward reads, and once otherwise (`WordWalk.EveryByteOnceOrTwice`).

Byte counts are unbounded; `total` wraps modulo 2^64 as the C counter does, and `len * K` is taken of the wrapped
count. Only the results that compare lengths ask for lengths below 2^64.

## Model

| member | source | states |
|---|---|---|
| Streaming.State.constructor | hayahash.h:1679-1701 | A new state has absorbed nothing, keeps its seed and satisfies the invariant. |
| Streaming.State.Reset | go/stream.go:51-70 | From any state, valid or not, reset gives an empty valid state with the given seed. |
| Streaming.State.SeedLanes | hayahash.h:1682-1690 | Writing the eight lanes one by one gives the initial lanes of the reference. |
| Streaming.State.AbsorbBlocks | hayahash.h:1707-1733 | The lanes and the previous stripe after the call are the block fold of the bytes over the lanes before it. |
| Streaming.State.CopyIn | hayahash.h:1771-1775 | Buffered bytes grow by x and still are exactly what follows the absorbed prefix. |
| Streaming.State.Bypass | hayahash.h:1757-1770 | Draining the floor and then absorbing x straight from the caller keeps the lanes equal to the fold of the whole history. |
| Streaming.State.ConsumeFront | hayahash.h:1778-1785 | After the shift-down the buffer holds exactly the bytes that were not consumed, and the lanes have absorbed the others. |
| Streaming.State.Update | hayahash.h:1735-1786 | Any reachable state and any data give a valid state whose history is the concatenation; it is committed to the bulk path from 448 bytes on and then holds 128 to 447; the exact buffered count, at most three passes and at most 896 copied bytes are stated. |
| Streaming.BufferedIs | hayahash.h:1756-1786 | The buffered count in closed form: everything below 448 bytes, else 128 bytes and a remainder by whole blocks or by fills of 320. |
| Streaming.State.Refill | hayahash.h:1756-1785 | The loop ends with 128 to 447 buffered bytes, at least 320 consumed, the history extended by the data, in at most three passes. |
| Streaming.State.Finish | hayahash.h:1801-1870 | Continuing from a copy of the lanes over the buffer gives the folds of the one-shot walk over the whole history. |
| Streaming.ContinueFolds | go/stream.go:186-238 | Leftover blocks, at most one round, wall and tail equal the reference continuation for any number of bytes above 16. |
| Streaming.State.Digest64 | hayahash.h:1794-1873 | The digest of a state is the one-shot 64-bit hash of its history; nothing is modified. |
| Streaming.State.Digest128 | hayahash.h:1878-1955 | The 128-bit digest of a state is the one-shot 128-bit hash of its history; nothing is modified. |
| Streaming.DigestEveryPrefix | paper/main.tex:739-744 | For every seed and every split, digests of both widths taken after every piece are the one-shot hashes of the prefix so far. |
| Streaming.TracksAppend | hayahash.h:1652-1659 | New bytes extend what is buffered without touching the lanes. |
| Streaming.TracksConsume | hayahash.h:1652-1659 | Whole blocks move from the front of the buffer into the lanes. |
| Streaming.TracksWalk | hayahash.h:1801-1808 | With 16 bytes kept back, continuing from the tracked lanes is the one-shot walk. |
| Reference.Hash128 | hayahash.h:69-70 | The low word of the 128-bit reference hash is the 64-bit one for every input and seed. Both references share one walk; the header's separate bodies are compared in the `WideDispatch` rows, and what the reference computes is pinned by the answers below. |
| KnownAnswers.Empty | test_vectors/v0.5.0.txt:131 | The empty message under seed 0 has the published 128-bit digest, whose low word is the 64-bit one. |
| KnownAnswers.ThreeBytes | test_vectors/v0.5.0.txt:16 | One to three bytes, under a nonzero seed: the published digest of 25 C3 61. |
| KnownAnswers.FourBytes | test_vectors/v0.5.0.txt:17 | Four to seven bytes, the fourth above 0x7F: the published digest of 25 C3 61 FF. |
| KnownAnswers.HelloWorld | test_vectors/v0.5.0.txt:132 | Eight to sixteen bytes: the published digest of `hello world`. |
| LongAnswers.TailAlone | test_vectors/v0.5.0.txt:64 | 24 pattern bytes, a tail without a stripe: the published digest. |
| LongAnswers.OneRound | test_vectors/v0.5.0.txt:79 | 48 pattern bytes, one round and a tail of 16 bytes: the published digest. |
| LongAnswers.Bulk | test_vectors/v0.5.0.txt:112 | 320 pattern bytes, five blocks of the eight-lane loop: the published digest. |
| Reference.WalkBelow | hayahash.h:285-288 | Every message of 17 to 319 bytes takes the four-lane path from its first byte. |
| Reference.WalkFrom | hayahash.h:285-288 | Every message of 320 bytes or more takes the eight-lane path first. |
| Reference.PairIs | hayahash.h:576-578 | The second short load is the middle byte one place up plus the last byte two places up. |
| Words.LoadIsSum | hayahash.h:113-147 | A 4-byte load is the sum of its four bytes, each at its place, with nothing above bit 31; an 8-byte load is two of them. |
| Words.MultiplierIsGolden | hayahash.h:217-218 | K is 2^64 over the golden ratio, rounded down. |
| ClosedForms.XorIs | hayahash.h:591-599 | Xor of two words is xor of their 64-bit vectors. |
| ClosedForms.RotlQuotient | hayahash.h:148-152 | A rotation by n is the remainder by 2^(64-n) times 2^n, plus the quotient. |
| Reference.BlocksSplit | hayahash.h:1652-1655 | Absorbing a and then b is absorbing their concatenation, block by block. |
| Reference.ContinueSplit | hayahash.h:1652-1659 | A long input may be absorbed up to any block boundary and forgotten as long as 16 bytes remain; rounds and reach-back then read the same words. |
| Reference.BlockSuffix | hayahash.h:369-395 | A block depends on its 64 bytes and not on where they lie. |
| OneShot.BulkLoop | rust/src/lib.rs:207-231 | The eight-lane loop leaves the block fold of all whole blocks and stops at the last block boundary. |
| OneShot.AbsorbBlocks | swift/Sources/Hayahash/Hasher.swift:200-250 | Lanes passed and returned by value: the block fold of the given bytes. |
| OneShot.TailFolds | rust/src/lib.rs:250-269 | Wall, forward tail and the reach-back to the last 16 bytes give the reference folds for every remainder. |
| OneShot.FinishLoop | rust/src/lib.rs:239-269 | The four-lane loop followed by the tail equals the reference finish from any offset. |
| OneShot.FinishOnce | hayahash.h:504-542 | With under 64 bytes left, one conditional round is the whole loop. |
| OneShot.HashShort | rust/src/lib.rs:158-187 | The short path returns the reference digests for all lengths up to 16; the high word is zero unless asked for. |
| OneShot.Hash | rust/src/lib.rs:147-278 | One body returns the reference 64-bit hash or the reference pair, for every key and seed. |
| Dispatch.PlainBlock | hayahash.h:369-400 | The stripe-by-stripe spelling of a block is the reference block. |
| Dispatch.ArrayLaneBlock | hayahash.h:349-368 | The spelling with four lanes in an array, updated by a loop that reloads its words, is the same block. |
| Dispatch.TwoBlockLoop | hayahash.h:475-485 | Two blocks a pass up to a precomputed end, then at most one more, equals the one-block fold of all whole blocks. |
| Dispatch.TwoBlockArrayLoop | hayahash.h:471-495 | The same over the array-lane block, with the middle lanes folded back at the end. |
| Dispatch.ArrayPairs | hayahash.h:475-481 | After k passes the array and the other lanes together are the fold of 128 k bytes. |
| Dispatch.FirstAbsorb | hayahash.h:654-668 | The first absorb of a tier may drop the rotated previous stripe because it is zero. |
| Dispatch.Tier32 | hayahash.h:641-653 | 17 to 31 bytes: no wall and no stripe, and still the reference folds. |
| Dispatch.Tier64 | hayahash.h:654-684 | 32 to 63 bytes: one straight-line round equals the loop. |
| Dispatch.Tier128 | hayahash.h:685-741 | 64 to 127 bytes: two or three straight-line rounds equal the loop, with the tail offsets that go with each. |
| Dispatch.Tier192 | hayahash.h:742-814 | 128 to 191 bytes: four or five rounds equal the loop. |
| Dispatch.Tier256 | hayahash.h:815-903 | 192 to 255 bytes: six or seven rounds equal the loop. |
| Dispatch.TwoRoundLoop | hayahash.h:909-954 | Two rounds a pass and at most one more equal the one-round loop. |
| Dispatch.MidFolds | hayahash.h:640-970 | For every length 17 to 319, tiers or compact loop, the folds are the reference folds. |
| Dispatch.LongFolds | hayahash.h:415-542 | For every length from 320 on, each of the three bulk loops ends in the reference folds. |
| Dispatch.LaneFolds | hayahash.h:438-446 | Above 16 bytes every build folds to the reference walk from the same initial lanes. |
| Dispatch.HashNarrow | hayahash.h:547-1006 | Every build of hayahash64 returns the reference word for every key and seed. |
| WideDispatch.LongMix | hayahash.h:1040-1050 | The two-word extraction gives the reference low and high words of the two folds. |
| WideDispatch.WideTier32 | hayahash.h:1298-1309 | 17 to 31 bytes: the tail-only body of the 128-bit hash gives both words of the reference folds. |
| WideDispatch.WideTier64 | hayahash.h:1310-1339 | 32 to 63 bytes: the same for its single straight-line round. |
| WideDispatch.WideTier128 | hayahash.h:1340-1395 | 64 to 127 bytes: the same for two or three rounds. |
| WideDispatch.WideTier192 | hayahash.h:1396-1467 | 128 to 191 bytes: the same for four or five rounds. |
| WideDispatch.WideTier256 | hayahash.h:1468-1555 | 192 to 255 bytes: the same for six or seven rounds. |
| WideDispatch.WideTwoRoundLoop | hayahash.h:1556-1632 | Two rounds a pass and at most one more, then both words, equal the reference for every length above 16. |
| WideDispatch.WideCompactLoop | hayahash.h:1601-1632 | The one-round loop, then both words, equals it too. |
| WideDispatch.WideMid | hayahash.h:1270-1632 | For every length 17 to 319 tiers and compact loop of the 128-bit hash give both words of the reference folds. |
| WideDispatch.WideLong | hayahash.h:1083-1174 | For every length from 320 on the long body of the 128-bit hash, with any of the three bulk loops, gives both words of the reference folds. |
| WideDispatch.HashWide | hayahash.h:1178-1633 | Every build of hayahash128, from its own bodies and not from those of hayahash64, returns the reference pair, and its low word is the reference 64-bit hash. The short path and the bulk loop's text are the only parts shared with the 64-bit entry point besides wall and tail. |
| WideDispatch.WidthsAgree | hayahash.h:69-70 | For every key and seed, hayahash64 from any build is the low word of hayahash128 from any build. |
| Machine.BitsOfAdd | go/hayahash.go:79-99 | Adding words is adding 64-bit vectors, carries out of bit 63 dropped. |
| Machine.BitsOfMul | go/hayahash.go:49-75 | Multiplying words is multiplying 64-bit vectors. |
| Machine.BitsXor | go/hayahash.go:79-85 | The bit-by-bit xor of numbers of any size is xor of their vectors. |
| Machine.BitsOfSub | paper/main.tex:426-441 | Wrapping subtraction is vector subtraction. |
| Machine.BitsOr | hayahash.h:148-152 | The bit-by-bit or of numbers of any size is the or of their vectors. |
| Machine.BitsOfRotl1 | hayahash.h:148-152 | Rotating a word by one bit is the two shifts and the or of its vector. |
| Machine.BitsOfShl | hayahash.h:438-446 | A shift left by any n is n one-bit vector shifts left, bits pushed out at the top lost. |
| Machine.BitsOfShr | hayahash.h:232-238 | A shift right by any n is n one-bit vector shifts right. |
| Machine.BitsOfRotl | hayahash.h:148-152 | For n up to 64 a rotated word's vector is the or of the vector shifted left by n and shifted right by 64 - n. |
| Machine.BitsOfBytes | hayahash.h:113-147 | A little-endian load's vector is assembled from the bytes' vectors by shifts by 8 and ors. |
| Machine.BitsOfHalf | hayahash.h:232-238 | Halving a word is shifting its vector right by one. |
| Machine.BitsInjective | js/src/pure.ts:86-90 | Different masked integers have different 64-bit vectors, so nothing is confused between the two readings. |
| Rotations.RotlShifts | hayahash.h:148-152 | For every word and every amount up to 64, the shift-and-or form is the rotation. |
| Rotations.ShrDivides | hayahash.h:232-238 | A shift right by n is the quotient by 2^n. |
| Rotations.BitOrDisjoint | hayahash.h:113-147 | The or of a shifted high part and a low part is their sum. |
| Words.XorAssoc | hayahash.h:591-599 | Xor of words is associative, so chained xors may be regrouped. |
| Words.MulAdd | paper/main.tex:597-616 | Wrapping multiplication distributes over wrapping addition. |
| Words.Rotl1Xor | paper/main.tex:458-466 | Rotation is linear over xor. |
| Bijections.MulInverse | paper/main.tex:474-486 | Multiplying by one of the five odd constants is undone by its given inverse, on both sides. |
| Rotations.RotlFullTurn | hayahash.h:148-152 | Rotating by 64 is the identity. |
| Bijections.SpreadSquare | paper/main.tex:452-466 | Applying w ^ rotl(w, a) ^ rotl(w, b) twice doubles both rotation amounts. |
| Bijections.SpreadOrder | paper/main.tex:452-466 | Applying it 64 times is the identity, for every pair of rotation amounts. |
| Bijections.SpreadInverse | paper/main.tex:452-466 | Its 63rd power is a two-sided inverse. |
| Bijections.XorShiftInverse | paper/main.tex:474-486 | x ^ (x >> n) is undone, on both sides, by a finite sum of shifts, for every n above zero. |
| Finalizers.InjInverse | hayahash.h:268-279 | Both word injections have two-sided inverses. |
| Finalizers.FmixInverse | hayahash.h:232-238 | The short finalizer has a two-sided inverse. |
| Finalizers.Fmix128Inverse | hayahash.h:240-250 | The finalizer of the high word has a two-sided inverse. |
| Finalizers.LongFmixInverse | hayahash.h:251-257 | The long finalizer has a two-sided inverse. |
| Finalizers.AbsorbInverse | hayahash.h:369-395 | A lane's absorb determines the stripe from the lanes around it and the lane from the stripe. |
| Finalizers.AbsorbTailInverse | hayahash.h:530-537 | A tail absorb determines the word it absorbed. |
| Finalizers.LoadBytes | hayahash.h:128-147 | A little-endian load is undone by writing the word's bytes in order. |
| Finalizers.BytesLoad | hayahash.h:128-147 | Every word is the load of its eight bytes. |
| ShortPath.UnloadLoaded | hayahash.h:567-581 | The two overlapping words of a message of at most 16 bytes determine every byte. |
| ShortPath.ShortXInverse | hayahash.h:591-591 | The first multiplied word is a bijection of the loaded word. |
| ShortPath.ShortYInverse | hayahash.h:592-593 | So is the second. |
| ShortPath.ExtractInverse | hayahash.h:1029-1038 | Both output words together determine the pair they were extracted from. |
| ShortPath.ExtractOnto | hayahash.h:1029-1038 | Every pair of output words is extracted from some pair. |
| ShortPath.MessageFromDigest | docs/design.md:186-190 | For each length up to 16 and each seed, the 128-bit digest determines the message, by an explicit inverse. |
| ShortPath.PermutationAtSixteen | docs/design.md:189-190 | At 16 bytes every digest is taken: with the previous row, a permutation of the 128-bit space for every seed. |
| ShortPath.SeedFromDigest | docs/design.md:186-189 | For each message of at most 16 bytes the 128-bit digest determines the seed. |
| Separation.FoldsSeparate | hayahash.h:1040-1050 | Changing exactly one of the two fold words changes both output words. |
| Separation.WalkIsSettled | hayahash.h:970-1005 | The digest of a long input depends on the stripes and the tail only through the four lanes before the fold and the length. |
| Separation.StripesIgnoreTail | hayahash.h:906-970 | Inputs that agree on all whole stripes bring the same lanes to the tail, on the bulk path and below it. |
| Separation.TailWordsCover | hayahash.h:985-996 | The tail's words determine every tail byte. |
| Separation.TailReachesTheFold | hayahash.h:985-996 | Equal-length inputs that agree on all whole stripes and differ in the tail always leave different lanes before the fold. |
| Separation.SingleLoadSeparates | hayahash.h:985-1005 | Equal-length inputs above 16 bytes that differ only in tail bytes which one load alone sees, whichever of the two or four loads it is, always have different 64-bit hashes and differ in both 128-bit words. |
| Separation.LastBytesSeparate | hayahash.h:985-1005 | In particular when they differ only in the last bytes that the last load alone sees. |
| Separation.FirstTailBytesSeparate | hayahash.h:985-1005 | And when they differ only in the first tail bytes, with more than 16 left over. |
| Separation.ExposedExactly | hayahash.h:985-996 | Which tail bytes only the last load, and only the first, reads: exactly the ones the two rows above name. |
| Separation.ShortTailsCollide | hayahash.h:985-1005 | With at most 16 bytes left over, two inputs of equal length and equal stripes agree in the 64-bit hash if and only if they agree in the 128-bit high word, and if and only if h2 ^ rotl(h3, 33) agrees before the fold. |
| Separation.LenMixInjective | hayahash.h:553-564 | Different lengths below 2^64 have different length terms. |
| Separation.LongLengthsSeparate | paper/main.tex:491-520 | Long inputs of different lengths that bring equal lanes to the fold differ in the 64-bit hash and in both 128-bit words. |
| Separation.ShortLengthsSeparate | paper/main.tex:491-512 | Short inputs of different lengths whose loaded words coincide always have different 64-bit hashes and differ in both 128-bit words. |
| Separation.ZerosSettle | paper/main.tex:522-526 | All-zero inputs of 17 to 31 bytes all bring the same lanes to the fold. |
| Separation.ZerosSeparate | paper/main.tex:522-526 | All-zero inputs of different lengths in one family never collide, in the 64-bit hash or in either 128-bit word, although they load equal words. |
| LaneWalks.LaneWalkInverse | hayahash.h:369-395 | For fixed bytes, a lane's walk over any number of blocks is undone by rewinding it. |
| LaneWalks.BlocksAreLaneWalks | hayahash.h:369-395 | The loop that carries the previous stripe through eight lanes computes each lane's own column walk: nothing crosses lanes but raw input words. |
| LaneWalks.StartInverse | hayahash.h:1682-1690 | Each initial lane value is a bijection of the seed. |
| LaneWalks.LaneIsBijectionOfSeed | hayahash.h:1679-1733 | After any fixed whole blocks, each of the eight lanes is a bijection of the seed. |
| LaneWalks.BlockFromLanes | hayahash.h:369-395 | For a fixed state before it, the lanes after a block determine its 64 bytes, the lane-0 checkpoint notwithstanding. |
| WordWalk.SettledReadsWords | hayahash.h:475-542 | For every message above 16 bytes and every seed, on the bulk path and below it, the lanes before the fold are a function of the length, the seed and the words loaded at the listed offsets, each of which goes to one lane. |
| WordWalk.EveryByteOnceOrTwice | hayahash.h:909-996 | Above 16 bytes every byte is read by one of those loads, and exactly the overlap of the reach-back with the forward reads by two. |
| WordWalk.ChainedStripesBounded | paper/main.tex:673-683 | The eight-lane loop runs exactly from 320 bytes on, with at most one round after it; the four-lane loop takes at most 36 stripes, and exactly 36 for 288 to 319 bytes. |
| AbsorbTrace.SettledTakesTrace | docs/design.md:95-105 | For every message above 16 bytes and every seed the lanes before the fold are a fold over the absorbed values: stripe value i goes to lane i mod 8 in the blocks and i mod 4 in the rounds as (h ^ t) * K, tail values as (h + t) * K. The only raw stripes are those of the checkpoint and of the wall, and they are decoded from the values. |
| AbsorbTrace.WordsSettleAsTrace | docs/design.md:95-105 | The same of any list of loaded words, whether or not a message loads it. |
| AbsorbTrace.TraceLosesNothing | docs/design.md:100-105 | Above 16 bytes, the length and the values that fold absorbs (chained stripes and injected tail words) decode back to the message. |
| AbsorbTrace.UnchainChain | paper/main.tex:426-441 | Whatever word precedes them, stripes are decoded from their chained values. |
| AbsorbTrace.ChainUnchain | paper/main.tex:426-441 | And every sequence of values is chained from some stripes: for any preceding word the chain is a bijection. |
| AbsorbTrace.FirstDifferenceAbsorbed | paper/main.tex:426-441 | For any preceding word, before the first differing stripe the absorbed values agree; at it they differ. |
| Channels.WindowFixed | paper/main.tex:597-616 | A multiplier fixes every difference in the top two bits if and only if it is 1 modulo 4. |
| Channels.TopThroughAbsorb | hayahash.h:20-30 | A lane difference in bit 63 passes an absorb unchanged, whatever is absorbed. |
| Channels.TopBitTravels | paper/main.tex:618-624 | It then passes any number of blocks unchanged: only words chained in from elsewhere can remove it. |
| Channels.RotationsResonate | paper/main.tex:704-714 | One rotation undoes another on every word if and only if the amounts add up to full turns. |
| Channels.FoldsDoNotResonate | paper/main.tex:716-726 | None of the seven fold rotations undoes the absorb's rotation by 27. |
| Channels.BitWalks | paper/main.tex:636-638 | A rotation by any n moves the single bit q to position q + n modulo 64. |
| Channels.ReturnsWhen | paper/main.tex:639-643 | After d stripes of rotation r a bit of the top two positions is in the top two positions if and only if rd is 0, 1 or -1 modulo 64. |
| Channels.LadderReturn | paper/main.tex:639-644 | With rotation 27 that first happens after 19 stripes, with 21 after 3. |
| Channels.EveryPositionVisited | paper/main.tex:638-639 | Displaced by 27 a stripe, a bit reaches every position. |
| Channels.EightLaneDisplacements | paper/main.tex:644-648 | In its own lane of the eight-lane loop it is displaced by exactly the multiples of 8. |
| Channels.FourLaneDisplacements | paper/main.tex:644-648 | In the four-lane loop by exactly the multiples of 4. |
| BigInts.JsRotl | js/src/pure.ts:42-44 | For every masked integer and every n up to 64, the shift-mask-or form is below 2^64 and is the rotation. |
| BigInts.JsShr | js/src/pure.ts:47-75 | An integer shift right is the logical shift of the word. |
| BigInts.JsSum | js/src/pure.ts:86-90 | Masking a sum of any two integers is the wrapped sum of what they leave after a mask. |
| BigInts.JsMul | js/src/pure.ts:86-90 | Masking the product of a possibly unmasked sum is the wrapped product of the masked sum. |
| BigInts.JsInj | js/src/pure.ts:78-80 | The BigInt injection is the word injection. |
| BigInts.JsInj2 | js/src/pure.ts:82-84 | So is the second one. |
| BigInts.JsFmix | js/src/pure.ts:47-54 | The BigInt short finalizer is the word finalizer. |
| BigInts.JsFmix128 | js/src/pure.ts:57-64 | The same for the high word's finalizer. |
| BigInts.JsFmixLong | js/src/pure.ts:69-74 | The same for the long finalizer. |
| BigInts.JsAbsorb | js/src/pure.ts:161-163 | The masked absorb expression is the lane absorb. |
| BigInts.JsAbsorbTail | js/src/pure.ts:217-228 | The tail absorb with its unmasked sum is the tail absorb on words. |
| BigInts.JsMerge | js/src/pure.ts:190-193 | The masked fold expression is the fold of two lanes. |
| BigInts.SeedMaskIs | js/src/stream.ts:72-76 | The masked seed is the one word that differs from the seed by whole multiples of 2^64, for negative seeds too. |
| PureEngine.InitialLanes | js/src/pure.ts:148-159 | The masked initial lanes are the reference lanes. |
| PureEngine.BlockStep | js/src/pure.ts:161-187 | The do-while body is one reference block. |
| PureEngine.BulkLoop | js/src/pure.ts:160-189 | The do-while loop is the block fold of all whole blocks. |
| PureEngine.MidLoop | js/src/pure.ts:198-211 | The mid loop is the rounds from any start. |
| PureEngine.TailFolds | js/src/pure.ts:213-231 | Wall, tail and folds equal the reference for every remainder, with p and l advanced past the forward tail first. |
| PureEngine.ShortWords | js/src/pure.ts:122-143 | The short path over integers gives the reference words x and u. |
| PureEngine.Engine | js/src/pure.ts:106-239 | For every input and masked seed the engine's integers are the reference hash, in both widths. |
| JsStream.PureHasher.constructor | js/src/stream.ts:72-76 | Any BigInt seed, negative or oversized, is reduced modulo 2^64; the state is empty and valid. |
| JsStream.PureHasher.Reset | js/src/stream.ts:106-111 | Resetting from any state gives an empty valid state, with the reduced seed if one is given and with the seed it had otherwise. |
| JsStream.PureHasher.Blocks | js/src/stream.ts:161-212 | The lanes become the block fold of the bytes. |
| JsStream.PureHasher.Bypass | js/src/stream.ts:137-144 | Draining the floor and absorbing straight from the caller keeps the lanes equal to the fold of the whole history. |
| JsStream.PureHasher.ConsumeFront | js/src/stream.ts:152-156 | What is not consumed stays buffered in order, and the lanes have absorbed the rest. |
| JsStream.PureHasher.Update | js/src/stream.ts:114-158 | The history is extended by the data; invariant, commitment and exact buffered count hold for every array length. |
| JsStream.PureHasher.Tail | js/src/stream.ts:246-337 | The folds of the one-shot walk over the history. |
| JsStream.PureHasher.Digest64 | js/src/stream.ts:218-224 | The one-shot hash of the history; nothing is modified. |
| JsStream.PureHasher.Digest128 | js/src/stream.ts:230-239 | The same for both words, the low one being the 64-bit digest. |
| JsStream.AgreesWithEngine | js/src/stream.ts:1-10 | Whatever the split and the seed, stream and one-shot engine return the same integers. |
| JavaHasher.Hasher.constructor | java/src/main/java/io/github/thevilledev/hayahash/Hasher.java:53-55 | A new hasher is empty, valid and keeps its seed. |
| JavaHasher.Hasher.Reset | java/src/main/java/io/github/thevilledev/hayahash/Hasher.java:62-78 | From any state, reset gives an empty valid one with the given seed. |
| JavaHasher.Hasher.Blocks | java/src/main/java/io/github/thevilledev/hayahash/Hasher.java:173-224 | Absorbing a range of a larger array is the block fold of that range, with every index a 32-bit int. |
| JavaHasher.Hasher.Update | java/src/main/java/io/github/thevilledev/hayahash/Hasher.java:120-170 | Succeeds exactly when the range lies in the array, and then extends the history by it; otherwise nothing changes at all; no 32-bit expression overflows for any offset and length. |
| JavaHasher.Hasher.Refill | java/src/main/java/io/github/thevilledev/hayahash/Hasher.java:144-169 | The loop over a range of the caller's array keeps the invariant and leaves the exact buffered count. |
| JavaHasher.Hasher.Tail | java/src/main/java/io/github/thevilledev/hayahash/Hasher.java:270-353 | The folds of the one-shot walk over the history, with every buffer index a 32-bit int. |
| JavaHasher.DrainBlocks | java/src/main/java/io/github/thevilledev/hayahash/Hasher.java:285-314 | The loop over leftover blocks is the block fold and leaves under 64 bytes. |
| JavaHasher.DrainRound | java/src/main/java/io/github/thevilledev/hayahash/Hasher.java:320-336 | The one conditional round is the rounds of what is left. |
| JavaHasher.DrainTail | java/src/main/java/io/github/thevilledev/hayahash/Hasher.java:338-352 | Wall, forward tail, reach-back and folds are those of the reference. |
| JavaHasher.Hasher.Digest64 | java/src/main/java/io/github/thevilledev/hayahash/Hasher.java:231-241 | The one-shot 64-bit hash of the history, the narrowing of the byte count included. |
| JavaHasher.Hasher.Digest128 | java/src/main/java/io/github/thevilledev/hayahash/Hasher.java:249-262 | The one-shot 128-bit hash of the history. |
| MapHasher.HayaHasher.constructor | rust/src/hasher.rs:84-94 | A new hasher holds nothing and has no heap. |
| MapHasher.HayaHasher.Write | rust/src/hasher.rs:136-155 | The bytes written so far are extended; the heap is in use exactly after more than 64 bytes, and then holds all of them. |
| MapHasher.HayaHasher.Buffer | rust/src/hasher.rs:105-111 | Inline or spilled, the buffer is exactly the bytes written. |
| MapHasher.HayaHasher.Finish | rust/src/hasher.rs:131-134 | The one-shot 64-bit hash of everything written. |
| MapHasher.HayaHasher.Finish128 | rust/src/hasher.rs:96-102 | The one-shot 128-bit hash of everything written. |
| MapHasher.HayaHasher.BuildHasher | rust/src/hasher.rs:158-164 | A hasher built from one in any state starts empty with the same seed. |
| MapHasher.AgreesWithState | rust/src/hasher.rs:60-73 | For every sequence of writes the map hasher and the streaming state return the same digests, in both widths. |
| OutputLines.LabelNeedsEscape | cli/hayasum.c:299-307 | True exactly when escaping changes the name. |
| OutputLines.Output.WriteEscaped | cli/hayasum.c:309-329 | Appends the escaped name to the stream and nothing else. |
| OutputLines.Output.PrintDigest | cli/hayasum.c:331-342 | Appends exactly one line, flagged exactly when its field differs from the name. |
| OutputLines.UnescapeEscape | cli/hayasum.c:309-329 | Unescaping an escaped name gives it back. |
| OutputLines.LineIsOneLine | cli/hayasum.c:293-297 | A line has one newline, at its end, and no carriage return, whatever the name. |
| OutputLines.HexRoundTrip | cli/hayasum.c:336-339 | Fixed-width hexadecimal reads back as the number it was printed from. |
| OutputLines.LineRoundTrip | cli/hayasum.c:331-342 | A line reads back as the width, the words and the name it was printed from. |
| OutputLines.EscapedLetters | cli/hayasum.c:309-329 | Wherever they stand, a newline becomes `\n`, a carriage return `\r` and a backslash two; every other character stays. |
| OutputLines.HexDigitChars | cli/hayasum.c:336-339 | The sixteen digits are 0 to 9 and a to f. |
| OutputLines.LinesSpelled | cli/tests/run.sh:118-123 | The line for standard input in both widths, high word first at 128 bits, and the flagged line of a name with a newline in it, character by character. |
| OutputLines.SplitJoin | cli/hayasum.c:293-297 | Any concatenation of lines splits back into the same lines. |
| OutputLines.PrintAll | cli/hayasum.c:331-342 | Printing any list of records gives as many lines, and line i reads back as record i. |
| SeedText.ParseU64 | cli/hayasum.c:125-153 | Accepts exactly nonempty decimal digits, or 0x or 0X and nonempty hexadecimal digits, with value below 2^64, and returns that value. |
| SeedText.StrtoullOnDigits | cli/hayasum.c:118-124 | On screened text the library has no space, sign or prefix to skip: it stops at the first non-digit and reports range exactly from 2^64 on. |
| SeedText.SeedStringParses | cli/hayasum.c:125-153 | A seed below 2^64 written in decimal or hexadecimal is accepted with its own value. |
| SeedText.HexSeedParses | cli/hayasum.c:125-153 | After 0x or 0X, in capitals or small letters and at any width that holds it, a hexadecimal number is read as itself. |
| SeedText.DecimalSeedParses | cli/hayasum.c:118-127 | Leading zeros do not make a seed octal, and any decimal number has its own value, so those from 2^64 on are refused. |
| SeedText.RefusedTexts | cli/hayasum.c:118-127 | Signs, spaces, empty or second prefixes, digits of the wrong base and the empty text are refused. |
| SeedText.LibraryTakesSigns | cli/hayasum.c:118-127 | Without the screen strtoull would take `-1` as 2^64 - 1 and `+1` as 1. |
| SeedText.LibraryTakesMore | cli/hayasum.c:118-127 | And leading spaces, and a prefix of its own. |
| Arguments.SetOption | cli/hayasum.c:156-182 | A value sets exactly its own field, or is refused with the error of its option. |
| Arguments.FindEquals | cli/hayasum.c:212-214 | The index of the first equals sign, or the length when there is none. |
| Arguments.ReadOption | cli/hayasum.c:199-284 | The reading of one element agrees with the specification for every string, the lone dash and `--` included. |
| Arguments.ParseArgs | cli/hayasum.c:185-291 | Status, options and first operand agree with the recursive specification for every argv, null elements and an empty argv included. |
| Arguments.HelpAsked | cli/hayasum.c:217-241 | After any settings `--help`, or `-h` and anything attached, asks for help whatever follows. |
| Arguments.VersionAsked | cli/hayasum.c:217-241 | The same for `--version` and `-V`. |
| Arguments.ValueNotTaken | cli/hayasum.c:234-241 | `--help=` and `--version=` with any value are each refused with their own error. |
| Arguments.UnknownLongOption | cli/hayasum.c:226-233 | Every long option but help, version, seed and bits is unknown, with or without a value, the empty name included. |
| Arguments.UnknownShortOption | cli/hayasum.c:262-275 | So is every letter but h, V, s and b, whatever is attached. |
| Arguments.ValueMissing | cli/hayasum.c:276-284 | `-s` and `-b` at the end, or before a null element, lack their value. |
| Arguments.LongValueMissing | cli/hayasum.c:243-252 | The same for `--seed` and `--bits`. |
| Arguments.Spellings | cli/hayasum.c:243-287 | The four ways to write each option, letter by letter. |
| Arguments.ValueRefused | cli/hayasum.c:156-182 | A value that is no seed below 2^64, or neither 64 nor 128, is refused with its own error in every form. |
| Arguments.OperandsStart | cli/hayasum.c:199-209 | Null, the empty text, a lone dash and text without a dash end the options and stay operands; `--` ends them and does not. |
| Arguments.RenderedParses | cli/hayasum.c:243-287 | Each of the four ways to write a value hands it to its option and goes on with what follows. |
| Arguments.FormsInterchangeable | cli/hayasum.c:243-287 | Two ways of writing a value parse alike whatever follows, if and only if neither attaches an empty value to a short option. |
| Arguments.EmptyValueDiffers | cli/hayasum.c:276-284 | With an empty attached value a short option takes the next argument, where every other form refuses the empty value. |
| Arguments.CommandLineRoundTrip | cli/hayasum.c:185-291 | Any settings in any forms, then `--` and operands, parse to the last seed, the last width and those operands; without `--` exactly when the first operand is not option-like. |

## Left out

- Files, standard input and output, errno, usage text and `main` of hayasum: input and output plumbing.
- The wording of hayasum's diagnostics (`hayasum_quote` and the message texts): errors are constructors that carry the offending text.
- The WebAssembly engine and its JavaScript wrapper, the CPython glue and the website: foreign calls and user interface around the same code.
- The C#, Swift, Zig and Haskell ports, the Rust streaming type and the assembly port: further copies of the loops and of the state machine modelled here.
- Compiler guards, `noinline`, unreachable hints, inline assembly and every timing claim: no effect on values.
- Pointers, alignment, `memcpy` and byte order: messages are sequences of bytes and loads assemble them little-endian, so aliasing between the caller's data and a state's buffer is not expressible.
- The outlined and the inline copy of the long path for 128 bits: one method, since they differ in where the code stands.
- A second copy of the bulk loop and of the short path for 128 bits: the header has one macro for the block, and both entry points call one method here.
- The text of wall, tail and fold is written once in `OneShot.TailFolds`; the header repeats it in every tier of both widths.
- The endless loop of `update` is one method whose steps (copy in, bypass, consume) are methods of their own.
- Statistical quality and general collision resistance: not claimed as theorems by the repository either.
- The other known answers of the tables: one message is proved for each path of the reference.
- `length` and `seed` accessors, `Sum`, `Size`, `BlockSize`, `Debug` and the map and set aliases: they only hand out what the states hold.
