# Nightflyer: a verified model

This project models two parts of the SystemLocker Nightflyer plugin and proves what they are for.

**Arithmetic under the signatures.** The word-array arithmetic of micro-ecc (64-bit words: addition, comparison, Comba
multiplication, both reductions, the binary modular inverse, scalar regularization and the co-Z ladder) and the limb
arithmetic of the Ed25519 code (field multiplication and encoding, reduction modulo the group order, the signed
sliding-window recoding and the double-scalar multiplication). The routines are methods over arrays, in the order of
the C code; each is proved equal to its one-line meaning. Points are elements of an arbitrary abelian group. Verify puts
the pieces together: it accepts exactly the strict signatures that satisfy the verification equation.

**The authorization session.** A persistent state machine over signed responses: leases and their epochs, terminal
states, high-water marks, a chain of signing-key links, a server-anchored clock and an end request that is retried
exactly. Tokens are datatypes; parsing and signature checks are arbitrary functions; every operation takes arbitrary
clock readings and arbitrary network answers. `Session` defines each step on values, `Authorization` is the object
whose methods perform the steps in place. `Documents`, `Verdicts`, `Requests`, `Endings` and `Standings` say exactly what
each step does, in terms of the fields of any document, any response and any reading of the clock: which documents open
and to what, what a response makes of the lease, when which request is sent, which answer ends a session, and what the
caller is told. `Safety`, `Epochs`, `Rings`, `Clocks`, `Marks`, `Verdicts`, `Endings` and `Reopening` prove what holds
over every run. `Peers` carries that over to any number of processes that share one saved document, and `Outgrown`
and `Spoiled` show runs whose document cannot be opened again. A process can stop after any save of an operation
(`Crashes`); what holds over every run holds over runs with such interruptions.

The streaming hashes and the base64url codec are modelled as well, since signatures and saved states rest on them.

## Layout

| modules | subject |
|---|---|
| Arithmetic, Words, Bits, Multiply, Reduce, Inverse, FastReduce, Modular | numbers in arrays of 64-bit words |
| Group, Ladder | scalar multiplication on an abstract group |
| Limbs, Scalar, Field, FieldBytes | numbers in limbs of mixed widths |
| Sliding, Signature, SmallOrder | signed digits, double-scalar multiplication, the strict signature check, small-order points |
| Hashing, Sha256, Sha512 | streaming hashes over any compression function |
| Base64 | the codec |
| Outcomes, Tokens, KeyChain, Exchange | signed objects, key links, requests and responses, the client |
| Persistence, Session, Authorization | saved documents, the steps of the session, the session object |
| Crashes | operations that are interrupted |
| Documents, Verdicts, Requests, Endings, Standings | what each step does, for every document, response and reading |
| Safety, Epochs, Rings, Clocks, Marks, Reopening | what holds over every run |
| Outgrown, Spoiled | runs whose saved document does not open again |
| Peers | several processes with one saved document |

## How the model reads the code

- `|` of two values without a common bit is a sum; that they have no common bit is proved where it is used.
- Fixed-width integers are subset types (`word`, `int32`, `int64`, `int8`, `byte`), so every intermediate value is proved
  to fit; unsigned wrap-around is written out as `% BASE`.
- The straight-line carry chains and folds of sc.c and fe.c are calls of one method per step, in the order of the C code.
- The subtraction with borrow inside uECC_vli_mmod (uECC.c:596-606) is the same loop as uECC_vli_sub and is modelled by it.
- A left shift of a negative value (sc.c, fe.c), which C leaves undefined, has its arithmetic meaning: the product with a
  power of two, proved to fit. A right shift of one is the floor of the quotient.
- Values that ghost code needs to keep linear are written with shift functions (`Up`, `Dbl`, `Shr`) instead of powers.
- The fields of the session's state are grouped into an epoch and a time checkpoint; the names are the source's.
- A thrown error is a failure value together with the state it leaves behind.
- The clock is read at named moments of an operation (`Moment`); one reading gives wall clock, counter and boot identifier
  together, and nothing relates the readings of different moments unless a lemma says so.
- `formatted`, `fits` and `parse` stand for JSON parsing, member names, regular expressions and length checks.

## Where the code differs from what is said about it

- The comment above fe_tobytes (fe.c:1364-1387) starts from |h| <= p, which does not follow from its stated limb bounds.
  The result holds all the same for all limbs within those bounds (`FieldBytes.EstimateIsFloor`).
- sha512_final keeps a 64-bit count. `Hashing.CountedExactly` gives the exact condition under which the padding is that
  of FIPS 180-4.
- The client's ring is not always the replay of the saved chain: the early exits of accept
  (authorization_session.cpp:415-417) and the throttled answer to an end request (authorization_session.cpp:537) leave
  it extended. `Rings.PerformRing` gives the exact condition, `Rings.StaleAnswerParts` an input. In a persistent session
  the next operation's reload restores it, in a memory-only session the next rebuild or restart (`Rings.RingInEveryRun`).
- What a session saves need not open again. Three limits are checked when a document is read and not when it is written:
  1024 links (authorization_session.cpp:218), 65536 characters a link (authorization_session.cpp:229-230) and 1048576
  bytes in all (authorization_session.cpp:235). Nor does accept check that the server keeps to one authorization and
  device. `Reopening.OpensExactly` and `Reopening.ReloadsExactly` give the exact condition, which can be computed before
  saving, and `Reopening.AcceptExactly` the answers that spoil the document; `Outgrown.TooManyLinks`,
  `Outgrown.TooLong` and `Outgrown.TooLarge` are runs in which every answer is proper and the document does not open
  again all the same, and `Spoiled.OtherAuthorization` is one in which an answer spoils it.

## Model

| member | source | states |
|---|---|---|
| Words.Clear | SystemLockerNightflyer/Source/ThirdParty/micro-ecc/uECC.c:215-220 | the first n words become zero, the others keep their value |
| Words.Set | SystemLockerNightflyer/Source/ThirdParty/micro-ecc/uECC.c:270-275 | n words are copied, the rest of dest stays |
| Words.CmpUnsafe | SystemLockerNightflyer/Source/ThirdParty/micro-ecc/uECC.c:279-291 | the sign of left - right as numbers, from the most significant word down |
| Words.Rshift1 | SystemLockerNightflyer/Source/ThirdParty/micro-ecc/uECC.c:323-333 | the number is halved in place and its top bit is clear |
| Words.Add | SystemLockerNightflyer/Source/ThirdParty/micro-ecc/uECC.c:338-352 | result + carry * 2^(64n) is the exact sum, also when result is an operand |
| Words.Sub | SystemLockerNightflyer/Source/ThirdParty/micro-ecc/uECC.c:357-371 | result - borrow * 2^(64n) is the exact difference, also when result is an operand |
| Bits.TestBit | SystemLockerNightflyer/Source/ThirdParty/micro-ecc/uECC.c:235-237 | whether a bit of the number is set |
| Bits.NumDigits | SystemLockerNightflyer/Source/ThirdParty/micro-ecc/uECC.c:240-248 | the least number of words that hold the number |
| Bits.NumBits | SystemLockerNightflyer/Source/ThirdParty/micro-ecc/uECC.c:251-266 | the bit length: the number is below 2^r and, unless it is zero, at least 2^(r-1) |
| Inverse.IsZero | SystemLockerNightflyer/Source/ThirdParty/micro-ecc/uECC.c:225-232 | whether the number is zero |
| Multiply.MuladdSplit | SystemLockerNightflyer/Source/ThirdParty/micro-ecc/uECC.c:382-406 | without a 128-bit type: r2:r1:r0 grows by exactly a * b modulo 2^192, for all inputs |
| Multiply.MuladdWide | SystemLockerNightflyer/Source/ThirdParty/micro-ecc/uECC.c:408-413 | with a 128-bit type: the same growth by a * b modulo 2^192 |
| Multiply.MuladdBoth | SystemLockerNightflyer/Source/ThirdParty/micro-ecc/uECC.c:382-413 | both forms run on the same words leave the very same three words |
| Multiply.SplitProduct | SystemLockerNightflyer/Source/ThirdParty/micro-ecc/uECC.c:383-402 | the four partial products and their carry give the two words of a * b |
| Multiply.AddTwoWords | SystemLockerNightflyer/Source/ThirdParty/micro-ecc/uECC.c:404-406 | the comparisons recover both carries of a two-word addition |
| Multiply.ColumnsProduct | SystemLockerNightflyer/Source/ThirdParty/micro-ecc/uECC.c:429-446 | the sum of all columns of word products is the product of the numbers |
| Multiply.ColumnFits | SystemLockerNightflyer/Source/ThirdParty/micro-ecc/uECC.c:430-440 | no column overflows the three-word accumulator |
| Multiply.StoreColumn | SystemLockerNightflyer/Source/ThirdParty/micro-ecc/uECC.c:429-446 | one column: stored words and carried words together equal the columns so far |
| Multiply.Mult | SystemLockerNightflyer/Source/ThirdParty/micro-ecc/uECC.c:419-448 | result is exactly left * right in 2n words |
| Reduce.AlignModulus | SystemLockerNightflyer/Source/ThirdParty/micro-ecc/uECC.c:581-594 | mod_multiple is mod shifted to the top of the double-width buffer |
| Reduce.HalveMultiple | SystemLockerNightflyer/Source/ThirdParty/micro-ecc/uECC.c:607-609 | the double-width multiple is halved across its two halves |
| Reduce.RoundSelects | SystemLockerNightflyer/Source/ThirdParty/micro-ecc/uECC.c:596-606 | the index that did not borrow holds the smaller residue, below the next multiple |
| Reduce.SubtractMultiple | SystemLockerNightflyer/Source/ThirdParty/micro-ecc/uECC.c:596-606 | after one trial subtraction, the buffer the borrow selects holds the same residue below the multiple |
| Reduce.Mmod | SystemLockerNightflyer/Source/ThirdParty/micro-ecc/uECC.c:572-612 | result is product % mod for every product, when the top word of mod is not zero |
| Modular.ModAdd | SystemLockerNightflyer/Source/ThirdParty/micro-ecc/uECC.c:543-553 | (left + right) % mod for operands below mod, with the carry out of the sum taken into account |
| Modular.ModSub | SystemLockerNightflyer/Source/ThirdParty/micro-ecc/uECC.c:557-568 | (left - right) % mod for operands below mod |
| Modular.ModMult | SystemLockerNightflyer/Source/ThirdParty/micro-ecc/uECC.c:615-623 | left * right % mod |
| Modular.ModMultFast | SystemLockerNightflyer/Source/ThirdParty/micro-ecc/uECC.c:625-636 | left * right % p, the same by the fast and by the generic reduction |
| Inverse.Update | SystemLockerNightflyer/Source/ThirdParty/micro-ecc/uECC.c:684-695 | uv is halved modulo an odd mod: twice the result is uv modulo mod, with the carry put back as the top bit |
| Inverse.SubtractMod | SystemLockerNightflyer/Source/ThirdParty/micro-ecc/uECC.c:726-729 | u - v modulo mod for residues u and v, with one dropped carry |
| Inverse.CarryCancels | SystemLockerNightflyer/Source/ThirdParty/micro-ecc/uECC.c:726-737 | the carry dropped when mod is added is cancelled by the borrow of the following subtraction |
| Inverse.HalveStep | SystemLockerNightflyer/Source/ThirdParty/micro-ecc/uECC.c:717-722 | halving a and u keeps u * input = a, v * input = b modulo mod and the common divisors |
| Inverse.SubtractHalveStep | SystemLockerNightflyer/Source/ThirdParty/micro-ecc/uECC.c:723-738 | subtracting and halving keeps them too |
| Inverse.Finish | SystemLockerNightflyer/Source/ThirdParty/micro-ecc/uECC.c:716-741 | when a = b, u is the inverse exactly when input and mod are coprime |
| Inverse.Round | SystemLockerNightflyer/Source/ThirdParty/micro-ecc/uECC.c:717-739 | one round of the loop keeps the invariant and makes a + b smaller |
| Inverse.ModInv | SystemLockerNightflyer/Source/ThirdParty/micro-ecc/uECC.c:699-742 | terminates for odd mod; the result is below mod and is an inverse of input exactly when gcd(input, mod) = 1; zero gives zero |
| FastReduce.TermsCongruent | SystemLockerNightflyer/Source/ThirdParty/micro-ecc/curve-specific.inc:984-1046 | the nine signed terms of section D.2.3 of FIPS 186-4 sum to the product modulo p |
| FastReduce.TermsBound | SystemLockerNightflyer/Source/ThirdParty/micro-ecc/curve-specific.inc:1048-1056 | their sum stays within a few multiples of 2^256 |
| FastReduce.AccumulateTerms | SystemLockerNightflyer/Source/ThirdParty/micro-ecc/curve-specific.inc:988-1046 | result + carry * 2^256 is exactly that signed sum, through every addition, doubling and subtraction |
| FastReduce.RaiseToRange | SystemLockerNightflyer/Source/ThirdParty/micro-ecc/curve-specific.inc:1048-1051 | the loop for a negative carry ends with carry zero and a result below p |
| FastReduce.LowerToRange | SystemLockerNightflyer/Source/ThirdParty/micro-ecc/curve-specific.inc:1052-1055 | the loop for a carry or a large result ends with a result below p |
| FastReduce.MmodFast | SystemLockerNightflyer/Source/ThirdParty/micro-ecc/curve-specific.inc:984-1057 | result is product % p for every 512-bit product |
| Ladder.RegularSelected | SystemLockerNightflyer/Source/ThirdParty/micro-ecc/uECC.c:913-924 | the selected buffer with its implicit top bit is k + n or k + 2n |
| Ladder.RegularizeK | SystemLockerNightflyer/Source/ThirdParty/micro-ecc/uECC.c:913-924 | k0 and k1 and the selecting flag, with that meaning, for 64-bit words and any bit length of n |
| Ladder.LadderBit | SystemLockerNightflyer/Source/ThirdParty/micro-ecc/uECC.c:888-896 | one bit takes (t, t + 1) times the point to (2t + b, 2t + b + 1) times it |
| Ladder.EccPointMult | SystemLockerNightflyer/Source/ThirdParty/micro-ecc/uECC.c:867-911 | the ladder, last bit peeled, gives the multiple by the regularized scalar in any abelian group |
| Ladder.OrderVanishes | SystemLockerNightflyer/Source/ThirdParty/micro-ecc/uECC.c:952-979 | multiples of the order drop out |
| Ladder.ComputePublicKey | SystemLockerNightflyer/Source/ThirdParty/micro-ecc/uECC.c:952-979 | k times the generator, for 0 <= k < n and a generator whose order divides n |
| Group.TimesAdd | SystemLockerNightflyer/Source/ThirdParty/ed25519/ge.c:112-132 | integer multiples add, for positive and negative multipliers |
| Limbs.BytesInjective | SystemLockerNightflyer/Source/SystemLockerNightflyer/Private/nightflyer.cpp:168-176 | a byte string of fixed length is determined by its number |
| Limbs.CarryKeepsValue | SystemLockerNightflyer/Source/ThirdParty/ed25519/sc.c:123-155 | moving a carry to the next limb keeps the number |
| Limbs.ShrLimbs | SystemLockerNightflyer/Source/ThirdParty/ed25519/sc.c:318-349 | shifting by the position of a limb drops the limbs below it |
| Limbs.ByteInside | SystemLockerNightflyer/Source/ThirdParty/ed25519/sc.c:318-349 | a byte that lies inside a limb |
| Limbs.ByteAcross | SystemLockerNightflyer/Source/ThirdParty/ed25519/sc.c:318-349 | a byte that joins two limbs, whose two parts do not overlap |
| Limbs.ByteFromIs | SystemLockerNightflyer/Source/ThirdParty/ed25519/sc.c:318-349 | the byte at any position of the limbs is the byte of the number |
| Scalar.FoldConstants | SystemLockerNightflyer/Source/ThirdParty/ed25519/sc.c:81-87 | the six constants fold 2^252 into a multiple of the order |
| Scalar.Fold | SystemLockerNightflyer/Source/ThirdParty/ed25519/sc.c:81-122 | folding a high limb takes out a multiple of the order, without overflow |
| Scalar.CarryRound | SystemLockerNightflyer/Source/ThirdParty/ed25519/sc.c:123-155 | a rounding carry keeps the number and leaves at most half a limb |
| Scalar.CarryFloor | SystemLockerNightflyer/Source/ThirdParty/ed25519/sc.c:241-276 | a floor carry keeps the number and leaves a digit |
| Scalar.LastCarry | SystemLockerNightflyer/Source/ThirdParty/ed25519/sc.c:231-276 | rounding at limb 11 leaves a carry of 0 or -1, and 0 exactly when the number is not negative |
| Scalar.FoldAndChain | SystemLockerNightflyer/Source/ThirdParty/ed25519/sc.c:234-276 | after the middle fold the number is within one order of its residue |
| Scalar.FinishReduction | SystemLockerNightflyer/Source/ThirdParty/ed25519/sc.c:277-316 | the final fold and chain land in [0, order) |
| Scalar.ReduceLimbs | SystemLockerNightflyer/Source/ThirdParty/ed25519/sc.c:81-316 | 24 limbs are reduced to 12 canonical ones, no 64-bit overflow in between |
| Scalar.LoadedIsLimb | SystemLockerNightflyer/Source/ThirdParty/ed25519/sc.c:39-62 | every masked load is the 21-bit limb of the number |
| Scalar.LoadLimbs | SystemLockerNightflyer/Source/ThirdParty/ed25519/sc.c:39-62 | the 24 limbs stand for the 64 bytes |
| Scalar.StoredIsByte | SystemLockerNightflyer/Source/ThirdParty/ed25519/sc.c:318-349 | every stored byte is the byte of the number |
| Scalar.ScReduce | SystemLockerNightflyer/Source/ThirdParty/ed25519/sc.c:38-350 | for every 64 bytes the first 32 become the number modulo the order, in [0, order); the top three bits are clear |
| Scalar.TopByte | SystemLockerNightflyer/Source/ThirdParty/ed25519/verify.c:57-59 | a number below the order has its top three bits clear |
| Field.ProductCongruent | SystemLockerNightflyer/Source/ThirdParty/ed25519/fe.c:580-703 | the ten coefficients represent f * g modulo 2^255 - 19 |
| Field.MulSum0 | SystemLockerNightflyer/Source/ThirdParty/ed25519/fe.c:694-694 | coefficient 0 from the 32- and 64-bit products, all in range under the stated bounds |
| Field.MulSum9 | SystemLockerNightflyer/Source/ThirdParty/ed25519/fe.c:703-703 | coefficient 9, likewise |
| Field.SqSum0 | SystemLockerNightflyer/Source/ThirdParty/ed25519/fe.c:1064-1064 | the shared products of fe_sq give the same coefficient 0 |
| Field.SqSum9 | SystemLockerNightflyer/Source/ThirdParty/ed25519/fe.c:1073-1073 | the shared products of fe_sq give the same coefficient 9 |
| Field.PassedNum | SystemLockerNightflyer/Source/ThirdParty/ed25519/fe.c:715-756 | a carry keeps the number; the one from limb 9 takes out a multiple of 2^255 - 19 |
| Field.Round | SystemLockerNightflyer/Source/ThirdParty/ed25519/fe.c:715-717 | one rounding carry: what stays is at most half the limb, what goes is the rest, nothing overflows |
| Field.CarryChain | SystemLockerNightflyer/Source/ThirdParty/ed25519/fe.c:715-756 | the twelve carries bring every limb into the stated output bounds without overflow |
| Field.FeMul | SystemLockerNightflyer/Source/ThirdParty/ed25519/fe.c:527-768 | f * g modulo 2^255 - 19 within the stated output bounds, also when h is f or g |
| Field.FeSq | SystemLockerNightflyer/Source/ThirdParty/ed25519/fe.c:985-1130 | limb for limb what FeMul(h, f, f) stores |
| FieldBytes.LoadedNumber | SystemLockerNightflyer/Source/ThirdParty/ed25519/fe.c:300-310 | the ten shifted loads hold the 32 bytes without their top bit |
| FieldBytes.FeFromBytes | SystemLockerNightflyer/Source/ThirdParty/ed25519/fe.c:300-363 | the field element of the bytes with their top bit cleared, within tight bounds |
| FieldBytes.EstimateDivides | SystemLockerNightflyer/Source/ThirdParty/ed25519/fe.c:1411-1421 | the chain of shifts is the division of h plus the first estimate by 2^255 |
| FieldBytes.EstimateIsQuotient | SystemLockerNightflyer/Source/ThirdParty/ed25519/fe.c:1364-1387 | a first estimate from limb 9 alone is close enough |
| FieldBytes.EstimateIsFloor | SystemLockerNightflyer/Source/ThirdParty/ed25519/fe.c:1411-1421 | the chained shifts compute exactly the floor of h / p |
| FieldBytes.Quotient | SystemLockerNightflyer/Source/ThirdParty/ed25519/fe.c:1411-1421 | q is the floor of h / p, in 32-bit arithmetic |
| FieldBytes.Floor | SystemLockerNightflyer/Source/ThirdParty/ed25519/fe.c:1425-1427 | one floor carry keeps the number |
| FieldBytes.TopCarry | SystemLockerNightflyer/Source/ThirdParty/ed25519/fe.c:1452-1460 | the carry out of limb 9, which is dropped, equals q |
| FieldBytes.Freeze | SystemLockerNightflyer/Source/ThirdParty/ed25519/fe.c:1411-1453 | limbs that fit their widths, for the residue of h |
| FieldBytes.EncodedIsByte | SystemLockerNightflyer/Source/ThirdParty/ed25519/fe.c:1462-1493 | every stored byte is the byte of the residue |
| FieldBytes.FeToBytes | SystemLockerNightflyer/Source/ThirdParty/ed25519/fe.c:1389-1494 | the unique 32 bytes of the residue modulo 2^255 - 19, for all limbs within 1.1 * 2^26 and 1.1 * 2^25 |
| FieldBytes.Canonical | SystemLockerNightflyer/Source/ThirdParty/ed25519/fe.c:1389-1494 | a byte string comes back unchanged exactly when it is below 2^255 - 19 |
| FieldBytes.RoundTrip | SystemLockerNightflyer/Source/ThirdParty/ed25519/fe.c:300-363 | decoding and encoding clears the top bit and reduces; the canonical encodings are exactly the fixed points |
| Sliding.BitsAreDigits | SystemLockerNightflyer/Source/ThirdParty/ed25519/ge.c:33-35 | the bits of the scalar are digits of it |
| Sliding.LowPart | SystemLockerNightflyer/Source/ThirdParty/ed25519/ge.c:37-60 | spaced digits stay below 8 times the next free weight |
| Sliding.Ripple | SystemLockerNightflyer/Source/ThirdParty/ed25519/ge.c:47-54 | the carry adds 2^k in binary and never runs off position 255 |
| Sliding.RunOff | SystemLockerNightflyer/Source/ThirdParty/ed25519/ge.c:47-54 | running off the end would need a scalar of 2^255 or more |
| Sliding.TakeBit | SystemLockerNightflyer/Source/ThirdParty/ed25519/ge.c:40-58 | bits 1 to 3 are added, bit 4 is subtracted with a carry, bits 5 and 6 never act |
| Sliding.Window | SystemLockerNightflyer/Source/ThirdParty/ed25519/ge.c:38-60 | one nonzero digit takes the four positions after it; the number stays |
| Sliding.Slide | SystemLockerNightflyer/Source/ThirdParty/ed25519/ge.c:28-61 | sum of r[i] * 2^i is the scalar; every digit is 0 or odd in [-15, 15]; four zeros follow every nonzero digit |
| Sliding.DigitEntry | SystemLockerNightflyer/Source/ThirdParty/ed25519/ge.c:115-129 | a digit picks a table entry with index 0 to 7 that is |digit| times the point |
| Sliding.OddTable | SystemLockerNightflyer/Source/ThirdParty/ed25519/ge.c:80-103 | A, 3A, ..., 15A |
| Sliding.TopDigit | SystemLockerNightflyer/Source/ThirdParty/ed25519/ge.c:106-110 | the highest position with a nonzero digit in either scalar |
| Sliding.AddDigit | SystemLockerNightflyer/Source/ThirdParty/ed25519/ge.c:115-121 | adds digit times the point from its table, with the entry subtracted for negative digits |
| Sliding.Accumulate | SystemLockerNightflyer/Source/ThirdParty/ed25519/ge.c:112-132 | from the highest nonzero digit down |
| Sliding.ScalarStep | SystemLockerNightflyer/Source/ThirdParty/ed25519/ge.c:112-132 | one doubling and two digit additions on m * A + n * B |
| Sliding.DoubleScalarMult | SystemLockerNightflyer/Source/ThirdParty/ed25519/ge.c:70-133 | a * A + b * B in any abelian group |
| Signature.LittleEndianLess | SystemLockerNightflyer/Source/SystemLockerNightflyer/Private/nightflyer.cpp:168-176 | less as little-endian numbers |
| Signature.OrderBytes | SystemLockerNightflyer/Source/SystemLockerNightflyer/Private/nightflyer.cpp:208-210 | the table holds the group order |
| Signature.PrimeBytes | SystemLockerNightflyer/Source/SystemLockerNightflyer/Private/nightflyer.cpp:180-182 | the table holds 2^255 - 19 |
| Signature.CanonicalScalar | SystemLockerNightflyer/Source/SystemLockerNightflyer/Private/nightflyer.cpp:206-212 | accepts exactly the scalars below the group order |
| Signature.StrictPoint | SystemLockerNightflyer/Source/SystemLockerNightflyer/Private/nightflyer.cpp:178-204 | accepts exactly the encodings with canonical y that is not the y of a small-order point |
| SmallOrder.TableTabulates | SystemLockerNightflyer/Source/SystemLockerNightflyer/Private/nightflyer.cpp:183-191 | the five entries of the table are 0, 1, one number, its opposite and -1 modulo 2^255 - 19 |
| SmallOrder.TableIsSmallOrder | SystemLockerNightflyer/Source/SystemLockerNightflyer/Private/nightflyer.cpp:183-204 | on the Ed25519 curve, with 2^255 - 19 prime and the curve constant no square: a canonical y is in the table exactly when some point with that y has order 1, 2, 4 or 8 |
| SmallOrder.StrictMeans | SystemLockerNightflyer/Source/SystemLockerNightflyer/Private/nightflyer.cpp:178-204 | under the same two facts: a point encoding is strict exactly when its y is canonical and belongs to no point of small order, for either sign bit |
| SmallOrder.Eighth | SystemLockerNightflyer/Source/SystemLockerNightflyer/Private/nightflyer.cpp:183-204 | in any field: the y of a point of order 8 is one known y up to its sign, because the other root of its equation would make the curve constant a square |
| Signature.VerifyEquation | SystemLockerNightflyer/Source/ThirdParty/ed25519/verify.c:50-80 | S * B - k * A encodes to R, with k the hash modulo the order; the top-bits test rejects nothing more |
| Signature.Verify | SystemLockerNightflyer/Source/SystemLockerNightflyer/Private/nightflyer.cpp:214-222 | accepts exactly the signatures with strict points, canonical scalar and a true equation |
| Hashing.ZeroCountFills | SystemLockerNightflyer/Source/SystemLockerNightflyer/Private/crypto.cpp:89-90 | the padding completes a block |
| Hashing.ZeroCountIsLeast | SystemLockerNightflyer/Source/SystemLockerNightflyer/Private/crypto.cpp:89-90 | with the fewest zeros, as sections 5.1.1 and 5.1.2 of FIPS 180-4 ask |
| Hashing.CompressedAppend | SystemLockerNightflyer/Source/SystemLockerNightflyer/Private/crypto.cpp:73-83 | compressing whole blocks of a message and then the rest is compressing the message |
| Hashing.BigEndianByte | SystemLockerNightflyer/Source/SystemLockerNightflyer/Private/crypto.cpp:92-94 | the stored length bytes are the big-endian digits of the bit count |
| Hashing.BigEndianWide | SystemLockerNightflyer/Source/ThirdParty/ed25519/sha512.c:250-259 | the upper eight bytes of the 16-byte length field are zeros |
| Hashing.CountedExactly | SystemLockerNightflyer/Source/ThirdParty/ed25519/sha512.c:232-260 | the 64-bit count gives the length field of the standard exactly for messages below 2^64 bits |
| Sha256.Sha256Schedule.constructor | SystemLockerNightflyer/Source/SystemLockerNightflyer/Private/crypto.cpp:41-44 | a new schedule has absorbed the empty message |
| Sha256.Sha256Schedule.Update | SystemLockerNightflyer/Source/SystemLockerNightflyer/Private/crypto.cpp:73-83 | appends the data to the message, whatever is in the buffer |
| Sha256.Sha256Schedule.Take | SystemLockerNightflyer/Source/SystemLockerNightflyer/Private/crypto.cpp:77-81 | one round of copying, with a compression when the buffer is full |
| Sha256.Sha256Schedule.PadZeros | SystemLockerNightflyer/Source/SystemLockerNightflyer/Private/crypto.cpp:88-90 | the wrap-around loop terminates with the least number of zeros |
| Sha256.Sha256Schedule.StoreLength | SystemLockerNightflyer/Source/SystemLockerNightflyer/Private/crypto.cpp:91-94 | the bit count from before the padding ends the block |
| Sha256.Sha256Schedule.Finish | SystemLockerNightflyer/Source/SystemLockerNightflyer/Private/crypto.cpp:85-107 | the padded message was compressed, and for less than 2^64 bits the digest is that of the standard |
| Sha256.HashPieces | SystemLockerNightflyer/Source/SystemLockerNightflyer/Private/crypto.cpp:123-128 | any split into updates gives the hash of the whole message |
| Sha512.Sha512Context.constructor | SystemLockerNightflyer/Source/ThirdParty/ed25519/sha512.c:150-165 | starts with an empty message |
| Sha512.Sha512Context.Update | SystemLockerNightflyer/Source/ThirdParty/ed25519/sha512.c:174-213 | appends the data to the message, through the buffer or past it |
| Sha512.Sha512Context.Fill | SystemLockerNightflyer/Source/ThirdParty/ed25519/sha512.c:192-210 | the branch through the buffer |
| Sha512.Sha512Context.PadZeros | SystemLockerNightflyer/Source/ThirdParty/ed25519/sha512.c:235-256 | the marker, with the length field in the same or in a further block |
| Sha512.Sha512Context.Final | SystemLockerNightflyer/Source/ThirdParty/ed25519/sha512.c:221-268 | the padded message was compressed, and for less than 2^64 bits the digest is that of the standard |
| Sha512.PaddedShort | SystemLockerNightflyer/Source/ThirdParty/ed25519/sha512.c:254-260 | one block is enough up to 111 pending bytes |
| Sha512.PaddedLong | SystemLockerNightflyer/Source/ThirdParty/ed25519/sha512.c:242-260 | two blocks above |
| Sha512.HashPieces | SystemLockerNightflyer/Source/ThirdParty/ed25519/sha512.c:270-278 | any split into updates gives the hash of the whole message |
| Base64.LetterHasValue | SystemLockerNightflyer/Source/SystemLockerNightflyer/Private/internal.hpp:50-55 | the decoder inverts the alphabet |
| Base64.EncodeAppend | SystemLockerNightflyer/Source/SystemLockerNightflyer/Private/crypto.cpp:148-162 | whole groups of three bytes encode independently of what follows |
| Base64.QuadDigits | SystemLockerNightflyer/Source/SystemLockerNightflyer/Private/crypto.cpp:152-155 | the four characters of a group are the base 64 digits of its three bytes, the most significant first |
| Base64.EncodeInAlphabet | SystemLockerNightflyer/Source/SystemLockerNightflyer/Private/crypto.cpp:148-177 | only alphabet characters, ceil(8n / 6) of them |
| Base64.Base64Url | SystemLockerNightflyer/Source/SystemLockerNightflyer/Private/crypto.cpp:148-177 | the encoding, without padding |
| Base64.DecodeEncode | SystemLockerNightflyer/Source/SystemLockerNightflyer/Private/internal.hpp:46-63 | the bit-accumulating decoder inverts the three-byte encoder on every byte string |
| Base64.EncodeInjective | SystemLockerNightflyer/Source/SystemLockerNightflyer/Private/crypto.cpp:148-177 | different byte strings have different encodings |
| Base64.Shift | SystemLockerNightflyer/Source/SystemLockerNightflyer/Private/internal.hpp:56-62 | the wrap of the 32-bit group never reaches a byte that is emitted |
| Base64.Collect | SystemLockerNightflyer/Source/SystemLockerNightflyer/Private/internal.hpp:46-63 | the decoder loop |
| Base64.Unb64 | SystemLockerNightflyer/Source/SystemLockerNightflyer/Private/internal.hpp:37-66 | succeeds exactly on encodings of nonempty byte strings, of the expected size unless that is 0, with those bytes |
| Tokens.JwsMeans | SystemLockerNightflyer/Source/SystemLockerNightflyer/Private/nightflyer.cpp:422-435 | a token verifies exactly when it is well formed, of its kind, signed by the trusted key it names and from the expected issuer; a bad signature is told from every other fault |
| Tokens.LeaseMeans | SystemLockerNightflyer/Source/SystemLockerNightflyer/Private/nightflyer.cpp:443-467 | a lease verifies exactly when it is addressed to this system and this installation, bound to the request and the hardware, its generation and revision are positive safe integers and its times are in order and span 90 days at most; each of its fields is then the claim of that name |
| Tokens.StatusMeans | SystemLockerNightflyer/Source/SystemLockerNightflyer/Private/nightflyer.cpp:469-496 | a status verifies exactly when it is addressed to this system, bound to the request, concerns the given lease and its numbers and times are in range; each of its fields is then the claim of that name |
| Tokens.DecisionMeans | SystemLockerNightflyer/Source/SystemLockerNightflyer/Private/nightflyer.cpp:498-536 | a decision verifies exactly when it is addressed to this system, bound to the request and names either this installation or the device of the status or lease, not both; each of its fields is then the claim of that name |
| Tokens.LeaseStaysVerified | SystemLockerNightflyer/Source/SystemLockerNightflyer/Private/nightflyer.cpp:443-467 | a verified lease verifies again, as the same lease, with any larger ring and without a request |
| Tokens.StatusStaysVerified | SystemLockerNightflyer/Source/SystemLockerNightflyer/Private/nightflyer.cpp:469-496 | so does a status, for the lease it concerns or for none |
| KeyChain.TransitionMeans | SystemLockerNightflyer/Source/SystemLockerNightflyer/Private/nightflyer.cpp:538-550 | a link is taken exactly when a trusted key that it names signed it for this system, its sequence is later and safe and its identifier is new or has that key already; the ring gains just that key |
| KeyChain.ReplayMeans | SystemLockerNightflyer/Source/SystemLockerNightflyer/Private/nightflyer.cpp:570-575 | a chain replays to what a sequence of rings, each one link from the one before, ends with |
| KeyChain.ReplayFails | SystemLockerNightflyer/Source/SystemLockerNightflyer/Private/nightflyer.cpp:570-575 | it fails as the first link that does not fit what the links before it derived |
| KeyChain.RestoreMeans | SystemLockerNightflyer/Source/SystemLockerNightflyer/Private/nightflyer.cpp:639-660 | a chain can be restored exactly when its links lead from the pinned roots to the expected sequence |
| KeyChain.TransitionExtends | SystemLockerNightflyer/Source/SystemLockerNightflyer/Private/nightflyer.cpp:538-550 | a link keeps every key and advances the sequence |
| KeyChain.ReplayExtends | SystemLockerNightflyer/Source/SystemLockerNightflyer/Private/nightflyer.cpp:538-550 | the ring only grows and never rebinds an identifier; sequences grow strictly |
| KeyChain.ReplayAppend | SystemLockerNightflyer/Source/SystemLockerNightflyer/Private/nightflyer.cpp:649-652 | a chain replayed in two parts is the chain replayed as a whole |
| KeyChain.ReplayRing | SystemLockerNightflyer/Source/SystemLockerNightflyer/Private/nightflyer.cpp:570-575 | the ring does not depend on the sequence a replay starts from |
| KeyChain.EveryKeyIntroduced | SystemLockerNightflyer/Source/SystemLockerNightflyer/Private/nightflyer.cpp:538-550 | a key not there at the start was introduced by a link signed by a key trusted before it |
| KeyChain.RestoredRing | SystemLockerNightflyer/Source/SystemLockerNightflyer/Private/nightflyer.cpp:639-660 | every pinned root keeps its key, every other key has its link |
| KeyChain.IncrementalIsFull | SystemLockerNightflyer/Source/SystemLockerNightflyer/Private/nightflyer.cpp:570-575 | the ring process builds on a restored ring is the full replay of the extended chain |
| Exchange.FramedMeans | SystemLockerNightflyer/Source/SystemLockerNightflyer/Private/nightflyer.cpp:564-599 | a framed answer is processed exactly when it echoes the request, its links follow the ring, the presented lease and every token in it verify for the request, the status is not behind, a success has a status and a denial a decision and fitting Problem Details; the response holds just these tokens |
| Exchange.UnframedMeans | SystemLockerNightflyer/Source/SystemLockerNightflyer/Private/nightflyer.cpp:558-562 | Problem Details without framing count exactly for a failure they fit, and carry no token and no link |
| Exchange.ProcessFails | SystemLockerNightflyer/Source/SystemLockerNightflyer/Private/nightflyer.cpp:552-599 | no answer is a transport error, an answer to something else or an incomplete one an invalid response, and a token that does not verify an invalid token or signature |
| Exchange.AttemptsMean | SystemLockerNightflyer/Source/SystemLockerNightflyer/Private/nightflyer.cpp:602-608 | a request is posted again after transport errors only, until there is an answer or the retries are used up, and the last answer counts |
| Exchange.ProcessExtends | SystemLockerNightflyer/Source/SystemLockerNightflyer/Private/nightflyer.cpp:570-599 | a processed response extended the ring by exactly its links; without a signed token it has none |
| Exchange.ProcessVerifies | SystemLockerNightflyer/Source/SystemLockerNightflyer/Private/nightflyer.cpp:576-594 | the lease and status of a processed response verify with the extended ring, for this request, and are not behind its high-water marks |
| Exchange.Client.constructor | SystemLockerNightflyer/Source/SystemLockerNightflyer/Private/nightflyer.cpp:322-347 | starts with the pinned keys |
| Exchange.Client.RestoreTransitions | SystemLockerNightflyer/Source/SystemLockerNightflyer/Private/nightflyer.cpp:639-660 | the ring of the chain, or an error and the old ring |
| Exchange.Client.ProcessResponse | SystemLockerNightflyer/Source/SystemLockerNightflyer/Private/nightflyer.cpp:552-600 | the ring grows only when everything in the response verified |
| Exchange.Client.Follow | SystemLockerNightflyer/Source/SystemLockerNightflyer/Private/nightflyer.cpp:570-575 | the links of one response, applied in order |
| Exchange.Client.Examine | SystemLockerNightflyer/Source/SystemLockerNightflyer/Private/nightflyer.cpp:576-597 | the tokens of one response against the extended ring |
| Exchange.Client.Send | SystemLockerNightflyer/Source/SystemLockerNightflyer/Private/nightflyer.cpp:602-608 | the same request is posted until the transport answers or the retries are used up |
| Documents.EncodesMeans | SystemLockerNightflyer/Source/SystemLockerNightflyer/Private/internal.hpp:37-66 | a text counts as a thumbprint or signature exactly when it encodes that many bytes |
| Documents.PreparedMeans | SystemLockerNightflyer/Source/SystemLockerNightflyer/Private/authorization_session.cpp:118-129 | any JSON object is a pending end request exactly when its nine members have their types, name an end request with a lease and are in range; saving the request gives the same object |
| Documents.VersionFourOpens | SystemLockerNightflyer/Source/SystemLockerNightflyer/Private/authorization_session.cpp:216-332 | any version 4 document, whoever wrote it: it opens exactly when it names this system, installation key and key reference, the installation key signed everything in it but the signature, its numbers, lengths and size are within the limits, its chain leads from the pinned roots, and its tokens and pending request verify and agree; it opens to a state whose every field is the document's |
| Documents.VersionThreeOpens | SystemLockerNightflyer/Source/SystemLockerNightflyer/Private/authorization_session.cpp:271-291 | any version 3 document: it opens exactly when it names this system and installation, still holds every pinned root and is within the limits; nothing but the credential is believed |
| Documents.RefusalMeans | SystemLockerNightflyer/Source/SystemLockerNightflyer/Private/authorization_session.cpp:233-332 | no other version opens; numbers out of range are told from every other fault |
| Documents.RuntimeFails | SystemLockerNightflyer/Source/SystemLockerNightflyer/Private/authorization_session.cpp:306-316 | a chain, a lease and a status that do not verify, and tokens that disagree, are told apart |
| Documents.ReloadMeans | SystemLockerNightflyer/Source/SystemLockerNightflyer/Private/authorization_session.cpp:318-332 | a reload opens the document in the store for the installation in memory, or changes nothing but the ring |
| Documents.TamperedStops | SystemLockerNightflyer/Source/SystemLockerNightflyer/Private/authorization_session.cpp:325-327 | a version 4 document whose signature is missing or not the installation key's over just this document stops every operation: nothing is sent, saved or believed |
| Documents.EditedStaysShut | SystemLockerNightflyer/Source/SystemLockerNightflyer/Private/authorization_session.cpp:325-327 | a document edited in the store under a signature made for another content never opens |
| Documents.PersistMeans | SystemLockerNightflyer/Source/SystemLockerNightflyer/Private/authorization_session.cpp:381-390 | a save writes one document that says what the state says, signed, with the later of the last known good time and the current one |
| Documents.RestartMeans | SystemLockerNightflyer/Source/SystemLockerNightflyer/Private/authorization_session.cpp:561-594 | a new process opens the document for the configured installation, or knows only its installation; a persistent one saves what it starts with |
| Persistence.PreparedRoundTrip | SystemLockerNightflyer/Source/SystemLockerNightflyer/Private/authorization_session.cpp:111-129 | saving and loading a pending end gives the same request, for exactly the retryable ones |
| Safety.ParseSaved | SystemLockerNightflyer/Source/SystemLockerNightflyer/Private/authorization_session.cpp:293-304 | a saved state that parses parses to itself |
| Safety.TokensOfSaved | SystemLockerNightflyer/Source/SystemLockerNightflyer/Private/authorization_session.cpp:306-316 | verifying the saved tokens gives the saved lease and status, or names what disagrees |
| Safety.ReloadKeepsState | SystemLockerNightflyer/Source/SystemLockerNightflyer/Private/authorization_session.cpp:318-332 | a reload brings back exactly what was saved, with a synchronized ring, or fails without changing the state |
| Safety.OpenKeepsState | SystemLockerNightflyer/Source/SystemLockerNightflyer/Private/authorization_session.cpp:185-200 | so does opening in a new process |
| Safety.OpenMigrates | SystemLockerNightflyer/Source/SystemLockerNightflyer/Private/authorization_session.cpp:267-288 | a version 3 document opens, if its key ring holds every pinned root unchanged, as a blank state that keeps only the credential, with the pinned ring |
| Safety.WithLeaseCoherent | SystemLockerNightflyer/Source/SystemLockerNightflyer/Private/authorization_session.cpp:434-447 | a new or continued lease keeps the flags and high-water marks together |
| Safety.WithStatusCoherent | SystemLockerNightflyer/Source/SystemLockerNightflyer/Private/authorization_session.cpp:392-404 | a status keeps them together; one that overtakes the lease revokes it |
| Safety.WithDecisionCoherent | SystemLockerNightflyer/Source/SystemLockerNightflyer/Private/authorization_session.cpp:406-411 | a decision keeps them together |
| Safety.JudgedCoherent | SystemLockerNightflyer/Source/SystemLockerNightflyer/Private/authorization_session.cpp:434-449 | lease, status and decision of one response together |
| Safety.JudgedTokens | SystemLockerNightflyer/Source/SystemLockerNightflyer/Private/authorization_session.cpp:434-449 | which lease, status and pending request are left |
| Safety.CommittedDerived | SystemLockerNightflyer/Source/SystemLockerNightflyer/Private/authorization_session.cpp:418-447 | what accept commits to can be replayed and verified again |
| Safety.AcceptInv | SystemLockerNightflyer/Source/SystemLockerNightflyer/Private/authorization_session.cpp:413-458 | accept keeps the invariant |
| Safety.ScheduleRetryInv | SystemLockerNightflyer/Source/SystemLockerNightflyer/Private/authorization_session.cpp:478-488 | scheduling a retry keeps it |
| Safety.ExecuteInv | SystemLockerNightflyer/Source/SystemLockerNightflyer/Private/authorization_session.cpp:490-514 | execute keeps it |
| Safety.EndLockedInv | SystemLockerNightflyer/Source/SystemLockerNightflyer/Private/authorization_session.cpp:527-549 | ending keeps it |
| Safety.RestartedInv | SystemLockerNightflyer/Source/SystemLockerNightflyer/Private/authorization_session.cpp:581-594 | a new process establishes it |
| Safety.OperateInv | SystemLockerNightflyer/Source/SystemLockerNightflyer/Private/authorization_session.cpp:684-729 | every public operation keeps it, whatever the server answers and the clock shows |
| Safety.InterruptedInv | SystemLockerNightflyer/Source/SystemLockerNightflyer/Private/authorization_session.cpp:381-390 | so does an operation that is interrupted, after whichever save |
| Crashes.EverySave | SystemLockerNightflyer/Source/SystemLockerNightflyer/Private/authorization_session.cpp:381-390 | an operation can stop after any of its saves: for every document it writes there is an interruption that leaves exactly the documents up to that one |
| Safety.EveryRun | SystemLockerNightflyer/Source/SystemLockerNightflyer/Private/authorization_session.cpp:413-458 | over every run, in which any operation of a persistent session can be interrupted: never both ended and revoked, either means no lease, ending means a pending request and a lease, a held lease has the highest generation, not below the minimum |
| Epochs.ExecuteEpoch | SystemLockerNightflyer/Source/SystemLockerNightflyer/Private/authorization_session.cpp:490-514 | only the response an operation heard changes its lease |
| Epochs.LeaseOnlyFromAuthorize | SystemLockerNightflyer/Source/SystemLockerNightflyer/Private/authorization_session.cpp:434-447 | without a lease, only an authorize response that accept commits to brings one, and it is the one in the response |
| Epochs.TerminalRun | SystemLockerNightflyer/Source/SystemLockerNightflyer/Private/authorization_session.cpp:707-729 | over every run, interruptions included, a session that is ended, revoked or without a lease has no usable lease until an authorize response that carries one is accepted |
| Epochs.EndRequestCreated | SystemLockerNightflyer/Source/SystemLockerNightflyer/Private/authorization_session.cpp:530-533 | a pending end request is created by an end operation that already sends it |
| Epochs.EndRequestKept | SystemLockerNightflyer/Source/SystemLockerNightflyer/Private/authorization_session.cpp:527-549 | a pending end request is sent as it is and stays until it is cleared |
| Epochs.EndRequestRun | SystemLockerNightflyer/Source/SystemLockerNightflyer/Private/authorization_session.cpp:527-549 | over every run, through retries, other reasons, saving, restarts and interruptions, every end request sent is the pending one, field for field |
| Epochs.UnansweredStaysPending | SystemLockerNightflyer/Source/SystemLockerNightflyer/Private/authorization_session.cpp:527-549 | nothing is sent that is not saved: an end request that got no signed answer is pending when the operation is over or is interrupted |
| Epochs.OnlySignedAnswersCount | SystemLockerNightflyer/Source/SystemLockerNightflyer/Private/authorization_session.cpp:490-549 | network failures, throttling and unsigned answers change neither the lease nor what is known of its grant |
| Epochs.SnapshotIsUsable | SystemLockerNightflyer/Source/SystemLockerNightflyer/Private/authorization_session.cpp:363-379 | a snapshot shows exactly the usable lease; its standing says whether there is one and whether it is due |
| Epochs.OnlyUsableLeases | SystemLockerNightflyer/Source/SystemLockerNightflyer/Private/authorization_session.cpp:369-379 | a lease in any returned snapshot is the usable lease at one of the operation's readings |
| Rings.SynchronizedRing | SystemLockerNightflyer/Source/SystemLockerNightflyer/Private/nightflyer.cpp:639-660 | pinned roots unchanged, every other key introduced by a link of the saved chain |
| Rings.AcceptRing | SystemLockerNightflyer/Source/SystemLockerNightflyer/Private/authorization_session.cpp:413-432 | from a synchronized ring, accept leaves one exactly when it reaches the rebuild or there is no new key |
| Rings.AcceptOutcome | SystemLockerNightflyer/Source/SystemLockerNightflyer/Private/authorization_session.cpp:413-432 | a commit makes the verifying ring the new ring, a rejected chain restores the old one |
| Rings.ReloadRing | SystemLockerNightflyer/Source/SystemLockerNightflyer/Private/authorization_session.cpp:318-332 | a reload synchronizes the ring unless it stops before replaying the saved chain |
| Rings.AcceptAnyRing | SystemLockerNightflyer/Source/SystemLockerNightflyer/Private/authorization_session.cpp:413-432 | whatever the ring was, accept synchronizes it when it gets to the rebuild, and leaves it alone when it does not |
| Rings.PerformRing | SystemLockerNightflyer/Source/SystemLockerNightflyer/Private/authorization_session.cpp:490-549 | whatever the ring was, an operation that gets to the rebuild synchronizes it; from a synchronized ring any other leaves one exactly when its response brought no new key, end requests and throttled answers included |
| Rings.ReloadedRing | SystemLockerNightflyer/Source/SystemLockerNightflyer/Private/authorization_session.cpp:318-332 | in a persistent session the ring after an operation is synchronized under that condition on this operation alone |
| Rings.MemoryRing | SystemLockerNightflyer/Source/SystemLockerNightflyer/Private/authorization_session.cpp:413-432 | in a memory-only session a restart or a rebuild synchronizes any ring, and a synchronized ring parts exactly when a response brings a new key without a rebuild |
| Rings.RingInEveryRun | SystemLockerNightflyer/Source/SystemLockerNightflyer/Private/authorization_session.cpp:413-432 | over every run of a memory-only session the ring is that of the chain from the start, a restart or any rebuild on, until a response brings a new key without a rebuild |
| Rings.StaleAnswerParts | SystemLockerNightflyer/Source/SystemLockerNightflyer/Private/authorization_session.cpp:417-417 | an input for which ring and chain part: a memory-only session, a link and a STALE_GENERATION decision |
| Clocks.OfflineTime | SystemLockerNightflyer/Source/SystemLockerNightflyer/Private/authorization_session.cpp:334-361 | effective time is the saturated anchor plus the seconds counted, the clock is trusted, the wall clock has no say |
| Clocks.UsableUntilExpiry | SystemLockerNightflyer/Source/SystemLockerNightflyer/Private/authorization_session.cpp:363-367 | a lease is usable exactly until the counter's time reaches its expiry |
| Clocks.StepPaced | SystemLockerNightflyer/Source/SystemLockerNightflyer/Private/authorization_session.cpp:381-390 | every operation, interrupted or not, keeps the checkpoint in pace with the boot counter, and an accepted response brings it in pace whatever it was before |
| Clocks.OfflineTimeInEveryRun | SystemLockerNightflyer/Source/SystemLockerNightflyer/Private/authorization_session.cpp:334-366 | over every run, with any boots and clocks before: from any operation on whose signed response was accepted, end requests included, while that boot lasts and its counter does not decrease, the effective time is the anchor plus the seconds counted, trusted, without regard to the wall clock, and a lease is usable exactly until its expiry by it |
| Clocks.AnchorInEveryRun | SystemLockerNightflyer/Source/SystemLockerNightflyer/Private/authorization_session.cpp:448-457 | over every run of a persistent session, with any boots and clocks, the anchor is that of the last accepted response: its signed time, with the counter, boot and wall clock at which it was taken |
| Clocks.SignedTimeInEveryRun | SystemLockerNightflyer/Source/SystemLockerNightflyer/Private/authorization_session.cpp:334-351 | so offline time is the signed time of the last accepted response plus the whole seconds counted since, in the boot in which it was taken |
| Clocks.UnanchoredRun | SystemLockerNightflyer/Source/SystemLockerNightflyer/Private/authorization_session.cpp:209-214 | until a response is accepted there is no anchor |
| Clocks.RebootInEveryRun | SystemLockerNightflyer/Source/SystemLockerNightflyer/Private/authorization_session.cpp:353-366 | over every run of a persistent session, with any boots and clocks: in the boot of the anchor a lease is usable only with a counter that has not fallen back; in any other boot only while the wall clock is not behind the last signed time by more than 5 seconds, the lease has not expired by it and policy allows offline use |
| Clocks.StepLater | SystemLockerNightflyer/Source/SystemLockerNightflyer/Private/authorization_session.cpp:381-390 | only an accepted response replaces the anchor or moves the last known good time back |
| Clocks.ExpiredStaysExpired | SystemLockerNightflyer/Source/SystemLockerNightflyer/Private/authorization_session.cpp:363-366 | after a save at or past its expiry a lease is not usable again before another signed response is accepted, under any readings, restarts and interruptions |
| Verdicts.JudgedMeans | SystemLockerNightflyer/Source/SystemLockerNightflyer/Private/authorization_session.cpp:434-449 | for any response: the lease is gone exactly when the response takes it back; which of revoked and ended holds, by the decision, then the status, then a new epoch; expired exactly when the decision or a reclaiming status says so, or it was and no lease replaces it; and when a pending end request goes |
| Verdicts.JudgedMarksMean | SystemLockerNightflyer/Source/SystemLockerNightflyer/Private/authorization_session.cpp:434-449 | the tokens and high-water marks after any response, by its fields |
| Verdicts.AnchoredMeans | SystemLockerNightflyer/Source/SystemLockerNightflyer/Private/authorization_session.cpp:450-456 | the new checkpoint is the signed time of the status, or else of the decision, or else of the lease, at the counter, boot and wall clock of that moment |
| Verdicts.AcceptMeans | SystemLockerNightflyer/Source/SystemLockerNightflyer/Private/authorization_session.cpp:413-458 | a response behind a sequence or generation is refused, a stale one reloads, and any other is taken exactly when the whole chain leads from the pinned roots to its sequence; all of it is saved at once and the retries are forgotten |
| Verdicts.StepMoves | SystemLockerNightflyer/Source/SystemLockerNightflyer/Private/authorization_session.cpp:413-458 | every step of a run, interrupted or not, gives the lease up, or does to it and its flags just what the response it accepted says, or leaves them alone |
| Verdicts.ReclaimedRun | SystemLockerNightflyer/Source/SystemLockerNightflyer/Private/authorization_session.cpp:403-403 | over every run: after an accepted status that reclaims the grant no lease is usable at any reading until another lease is accepted |
| Requests.PrepareMeans | SystemLockerNightflyer/Source/SystemLockerNightflyer/Private/nightflyer.cpp:358-420 | a request is prepared exactly when its texts and sequences are within their limits; its endpoint, address, body, proof, identifier, lease, hardware identity and sequences are those asked for |
| Requests.RenewalMeans | SystemLockerNightflyer/Source/SystemLockerNightflyer/Private/authorization_session.cpp:707-712 | a renewal is sent exactly when a lease is usable, due and no retry is scheduled for later, presents the held lease, and is posted until the transport answers; otherwise the answer is local |
| Requests.StatusRequestMeans | SystemLockerNightflyer/Source/SystemLockerNightflyer/Private/authorization_session.cpp:719-723 | a status is asked for exactly when a lease is held, and the request presents it |
| Requests.KeyRequestMeans | SystemLockerNightflyer/Source/SystemLockerNightflyer/Private/authorization_session.cpp:684-691 | a key of 1 to 160 characters is saved before it is sent; any other key is refused and not saved |
| Requests.StoredKeyRequestMeans | SystemLockerNightflyer/Source/SystemLockerNightflyer/Private/authorization_session.cpp:693-699 | the saved key is sent, if there is one |
| Requests.AccountRequestMeans | SystemLockerNightflyer/Source/SystemLockerNightflyer/Private/authorization_session.cpp:701-705 | an account request is always sent and carries no key |
| Requests.LocalMeans | SystemLockerNightflyer/Source/SystemLockerNightflyer/Private/authorization_session.cpp:596-601 | without a document that opens no operation does anything; loading sends nothing |
| Requests.RetryDelayMeans | SystemLockerNightflyer/Source/SystemLockerNightflyer/Private/authorization_session.cpp:478-487 | the delay is what the server asks for, or else the least of the drawn jitter, 30 seconds doubled with each failure up to 480, ten minutes and a third of the lease's remaining time; never more than that remaining time |
| Requests.ScheduleRetryMeans | SystemLockerNightflyer/Source/SystemLockerNightflyer/Private/authorization_session.cpp:478-488 | one more failure is counted, up to thirty, and the next retry is saved |
| Crashes.PostedIs | SystemLockerNightflyer/Source/SystemLockerNightflyer/Private/nightflyer.cpp:602-608 | an operation posts the one request it sends, and nothing else |
| Endings.PendingMeans | SystemLockerNightflyer/Source/SystemLockerNightflyer/Private/authorization_session.cpp:529-533 | a held lease without a pending end request gets one that presents it and is saved before it is sent; a pending one is left as it is |
| Endings.EndSends | SystemLockerNightflyer/Source/SystemLockerNightflyer/Private/authorization_session.cpp:527-536 | without a lease there is nothing to end; with one the pending or the new request is sent, unless its reason is empty or too long |
| Endings.FinishOutcome | SystemLockerNightflyer/Source/SystemLockerNightflyer/Private/authorization_session.cpp:538-541 | after accept: an acknowledged end is saved without lease and request, a revocation is told, and anything else is an error that leaves what accept left |
| Endings.EndAnswered | SystemLockerNightflyer/Source/SystemLockerNightflyer/Private/authorization_session.cpp:538-542 | a verified answer clears the request exactly when it is accepted and says LEASE_ENDED or ended, or takes the lease back; the caller is told ended exactly when it says so and does not revoke; an accepted answer that does neither is an error that leaves lease and request as they were |
| Endings.EndUnanswered | SystemLockerNightflyer/Source/SystemLockerNightflyer/Private/authorization_session.cpp:537-547 | a busy server or a failed transport leaves the request pending and schedules a retry; an answer that cannot be verified is an error and leaves it pending |
| Endings.EndRequestRetained | SystemLockerNightflyer/Source/SystemLockerNightflyer/Private/authorization_session.cpp:527-549 | over every run of a persistent session a pending end request stays, field for field, until an answer that is heard ends the grant, takes the lease back or starts a new epoch |
| Standings.EffectiveNowMeans | SystemLockerNightflyer/Source/SystemLockerNightflyer/Private/authorization_session.cpp:334-350 | the time is the anchor plus the whole seconds counted, up to the year 9999, or else the wall clock, and never before the last known good time |
| Standings.UntrustedMeans | SystemLockerNightflyer/Source/SystemLockerNightflyer/Private/authorization_session.cpp:352-361 | the exact condition under which the clock is not trusted |
| Standings.UsableMeans | SystemLockerNightflyer/Source/SystemLockerNightflyer/Private/authorization_session.cpp:363-367 | a lease is usable exactly when it is held, not ending, ended, revoked or expired by the server, the clock is trusted and its time is not over |
| Standings.SnapshotMeans | SystemLockerNightflyer/Source/SystemLockerNightflyer/Private/authorization_session.cpp:369-379 | each standing of a state has its exact condition, and the lease is shown exactly when it is usable |
| Standings.ResponseMeans | SystemLockerNightflyer/Source/SystemLockerNightflyer/Private/authorization_session.cpp:460-476 | what each response code, each other denial and each success is answered with |
| Standings.UnansweredMeans | SystemLockerNightflyer/Source/SystemLockerNightflyer/Private/authorization_session.cpp:490-514 | without an answer a retry is scheduled and the usable lease shown; an answer that cannot be verified is an error |
| Standings.AnsweredMeans | SystemLockerNightflyer/Source/SystemLockerNightflyer/Private/authorization_session.cpp:490-514 | a refused response is an error; after an accepted one a key the server does not know is forgotten, a busy server is asked again later, an unsigned denial is a protocol failure, and anything else is answered by what it says |
| Standings.OnlineMeansAccepted | SystemLockerNightflyer/Source/SystemLockerNightflyer/Private/authorization_session.cpp:460-476 | nobody is told authorized online unless a success with a signed status was heard and accepted and the lease is usable |
| Marks.OperateMarks | SystemLockerNightflyer/Source/SystemLockerNightflyer/Private/authorization_session.cpp:413-416 | no operation or restart moves a sequence back, generations go back only with a lease that answers an authorize request, and only a signed KEY_NOT_FOUND erases the saved credential |
| Marks.SequencesInEveryRun | SystemLockerNightflyer/Source/SystemLockerNightflyer/Private/authorization_session.cpp:413-416 | over every run of a persistent session, interruptions included, the sequences never move back |
| Marks.RetryInTime | SystemLockerNightflyer/Source/SystemLockerNightflyer/Private/authorization_session.cpp:478-488 | a retry is never in the past, nor past the expiry of a good lease, nor later than the server or the back-off asks |
| Marks.FreshStart | SystemLockerNightflyer/Source/SystemLockerNightflyer/Private/authorization_session.cpp:434-456 | whatever came before, an accepted authorize lease is usable at once and exactly until the boot counter reaches its expiry |
| Reopening.OpensExactly | SystemLockerNightflyer/Source/SystemLockerNightflyer/Private/authorization_session.cpp:216-316 | a saved document opens in a new process exactly when its tokens agree with its marks, its numbers and texts are in their ranges and it is within all three size limits |
| Reopening.ReloadsExactly | SystemLockerNightflyer/Source/SystemLockerNightflyer/Private/authorization_session.cpp:306-332 | and reloads exactly under the same condition |
| Reopening.JudgedAgreesExactly | SystemLockerNightflyer/Source/SystemLockerNightflyer/Private/authorization_session.cpp:434-449 | after lease, status and decision of a response, tokens and marks agree exactly when the response fits: what it leaves held belongs to the known authorization and its status concerns that lease |
| Reopening.AcceptExactly | SystemLockerNightflyer/Source/SystemLockerNightflyer/Private/authorization_session.cpp:413-458 | accept leaves a state whose tokens agree exactly for a fitting response; a refused or stale one changes nothing |
| Reopening.FaithfulRun | SystemLockerNightflyer/Source/SystemLockerNightflyer/Private/authorization_session.cpp:434-449 | over every run, a server that keeps a lease's authorization and device and reports the status of the held lease gives only fitting answers |
| Reopening.SolidOpens | SystemLockerNightflyer/Source/SystemLockerNightflyer/Private/authorization_session.cpp:216-316 | a document that was written by a session in good order opens exactly when it is within the limits |
| Reopening.OperateFine | SystemLockerNightflyer/Source/SystemLockerNightflyer/Private/authorization_session.cpp:684-729 | every operation with a fitting answer writes only such documents, also those saved in the middle of it |
| Reopening.SavedCanBeReopened | SystemLockerNightflyer/Source/SystemLockerNightflyer/Private/authorization_session.cpp:306-332 | over every run with fitting answers and a clock in range, interrupted anywhere, every document ever written opens exactly when it is within the limits, and the last one opens to the very state that was saved |
| Outgrown.TooManyLinks | SystemLockerNightflyer/Source/SystemLockerNightflyer/Private/authorization_session.cpp:218-218 | an input: a run with benign answers that saves a chain of 1025 links and can neither reload nor reopen it |
| Outgrown.TooLong | SystemLockerNightflyer/Source/SystemLockerNightflyer/Private/authorization_session.cpp:230-230 | an input: a run with benign answers that saves one link of 65537 characters and can neither reload nor reopen it |
| Outgrown.TooLarge | SystemLockerNightflyer/Source/SystemLockerNightflyer/Private/authorization_session.cpp:235-235 | an input: a run with benign answers that saves twenty links of some 60000 characters, each and all within the limits of the chain, and can neither reload nor reopen the document, which is over 1 MiB |
| Spoiled.OtherAuthorization | SystemLockerNightflyer/Source/SystemLockerNightflyer/Private/authorization_session.cpp:312-312 | an input: an authorize answer with a lease, then a status answer with a lease of the same generation for another authorization, both accepted; the document, which is within all limits, can neither be reloaded nor reopened |
| Peers.ReloadForgets | SystemLockerNightflyer/Source/SystemLockerNightflyer/Private/authorization_session.cpp:318-332 | a reload that succeeds depends on the store alone, not on what the process remembers |
| Peers.OperateForgets | SystemLockerNightflyer/Source/SystemLockerNightflyer/Private/authorization_session.cpp:684-729 | an operation of a stale process is that of the process that saved last, or fails without changing anything |
| Peers.ActIsOperation | SystemLockerNightflyer/Source/SystemLockerNightflyer/Private/authorization_session.cpp:684-729 | whichever process acts, interrupted or not, what is saved steps as one session does and with its answer, or nothing is saved and nothing sent |
| Peers.EveryInterleaving | SystemLockerNightflyer/Source/SystemLockerNightflyer/Private/authorization_session.cpp:684-729 | every interleaving of the operations of any number of processes, of which any can stop at any time, is, for the shared document, a run of one session |
| Authorization.AuthorizationSession.constructor | SystemLockerNightflyer/Source/SystemLockerNightflyer/Private/authorization_session.cpp:209-214 | a blank state that is not yet anchored |
| Authorization.AuthorizationSession.Persist | SystemLockerNightflyer/Source/SystemLockerNightflyer/Private/authorization_session.cpp:381-390 | the state is stamped, signed and written |
| Authorization.AuthorizationSession.Reload | SystemLockerNightflyer/Source/SystemLockerNightflyer/Private/authorization_session.cpp:318-332 | the saved state with its tokens verified and the ring replayed, or an error and the previous ring |
| Authorization.AuthorizationSession.ApplyStatus | SystemLockerNightflyer/Source/SystemLockerNightflyer/Private/authorization_session.cpp:392-404 | revokes, ends or expires the lease as the status says, as JudgedMeans spells out; a status that overtakes the generation revokes |
| Authorization.AuthorizationSession.ApplyDecision | SystemLockerNightflyer/Source/SystemLockerNightflyer/Private/authorization_session.cpp:406-411 | revokes, ends or expires the lease as the decision says |
| Authorization.AuthorizationSession.Commit | SystemLockerNightflyer/Source/SystemLockerNightflyer/Private/authorization_session.cpp:433-457 | lease, then status, then decision, then the new checkpoint, in this order |
| Authorization.AuthorizationSession.Accept | SystemLockerNightflyer/Source/SystemLockerNightflyer/Private/authorization_session.cpp:413-458 | a response is committed and saved, or refused with the ring and state that AcceptRing describes |
| Authorization.AuthorizationSession.ScheduleRetry | SystemLockerNightflyer/Source/SystemLockerNightflyer/Private/authorization_session.cpp:478-488 | failures and next retry are saved; nothing else of the state changes but the time checkpoint |
| Authorization.AuthorizationSession.Execute | SystemLockerNightflyer/Source/SystemLockerNightflyer/Private/authorization_session.cpp:490-514 | one request, posted until it is answered: its response is accepted, retried later or reported, as AnsweredMeans and UnansweredMeans say |
| Authorization.AuthorizationSession.EndLocked | SystemLockerNightflyer/Source/SystemLockerNightflyer/Private/authorization_session.cpp:527-549 | the pending end request is created or kept, sent, and cleared as EndAnswered says |
| Authorization.AuthorizationSession.Load | SystemLockerNightflyer/Source/SystemLockerNightflyer/Private/authorization_session.cpp:596-601 | the state that was saved and its snapshot; nothing is saved or sent |
| Authorization.AuthorizationSession.AuthorizeWithKey | SystemLockerNightflyer/Source/SystemLockerNightflyer/Private/authorization_session.cpp:684-691 | keeps the key before the request goes out; the answer, the requests, the state, the ring and the store are those of one step of a run |
| Authorization.AuthorizationSession.AuthorizeWithStoredKey | SystemLockerNightflyer/Source/SystemLockerNightflyer/Private/authorization_session.cpp:693-699 | one authorize step with the saved key, or a denial without a request |
| Authorization.AuthorizationSession.AuthorizeWithAccount | SystemLockerNightflyer/Source/SystemLockerNightflyer/Private/authorization_session.cpp:701-705 | one authorize step that leaves the saved key alone |
| Authorization.AuthorizationSession.RenewIfDue | SystemLockerNightflyer/Source/SystemLockerNightflyer/Private/authorization_session.cpp:707-712 | one renew step when the lease is due and no retry is pending, else the local snapshot |
| Authorization.AuthorizationSession.SynchronizeStatus | SystemLockerNightflyer/Source/SystemLockerNightflyer/Private/authorization_session.cpp:719-723 | one status step for a held lease, else the local snapshot |
| Authorization.AuthorizationSession.End | SystemLockerNightflyer/Source/SystemLockerNightflyer/Private/authorization_session.cpp:725-729 | one end step, with every request it posted |
| Authorization.AuthorizationSession.Tick | SystemLockerNightflyer/Source/SystemLockerNightflyer/Private/authorization_session.cpp:714-717 | a renewal, followed by an end when a memory-only session finds its lease expired, with the requests of both |
| Authorization.OpenSession | SystemLockerNightflyer/Source/SystemLockerNightflyer/Private/authorization_session.cpp:561-594 | opens what was saved, migrates a version 3 document to a blank state with its credential, or starts blank; a document that fails a check gives an error |

## Left out

- Curve formulas, the final division by Z in the ladder, and primality: points are elements of an abstract abelian group.
  That 2^255 - 19 is prime and the curve constant no square are hypotheses of `SmallOrder.TableIsSmallOrder`.
- The random initial Z and all timing properties.
- The compression functions of SHA-256 and SHA-512: the padding and buffering hold for any compression function.
- The 32-bit form of the P-256 reduction, the other curves, squaring, mod_sqrt, signing and DER.
- fe_add, fe_sub, fe_invert and the powers: their limbs are single additions or chains of FeMul and FeSq.
- Point decompression and ge_tobytes: functions of `Signature.Curve`.
- JSON text, regular expressions and the nlohmann library: tokens and documents are datatypes, and the text of a request
  and its proof are any function of what they say (`Setup.render`, `Setup.proof`; the proof's time is not part of it).
- Lengths are counted in characters where the code counts bytes.
- The 1 MiB limit on response bodies; how long the text of a saved document is (`Setup.size` is any function).
- The single clock calls within one moment: clockIsUntrusted and effectiveNow each read the clock, and readings that
  differ between them are not covered.
- forget and easyAuthorize: erasing the store, and a composition of the modelled operations.
- The shutdown hook that ends a memory-only lease.
- Locks: the operations of different processes exclude each other, and a process that stops gives the lock back.
- Failures of the store's own load and save, saves that are half done, and failures of the signing key.
- Overflow of 64-bit time arithmetic for wall clocks near the ends of the int64 range.
- Diagnostic texts of snapshots.
