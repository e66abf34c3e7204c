# Verified model of the rf-2a4m1 wireless core

This project models the freestanding C core of the rf-2a4m1 Wi-Fi driver and proves properties of the
model: the P-256 arithmetic, the symmetric cryptography and its framings, the station and access-point
state machine with its 4-way handshake, and the small protocols and formats around it.

How the model is laid out:

- `Words`, `ModArith`, `Limbs`: machine words as bounded integers, arithmetic modulo a number, 8 x 32-bit
  limb arrays with their value.
- `P256Repr`, `P256Field`, `P256Elem`, `P256Bytes`, `P256Point`, `P256Scalar`: the Montgomery field, powers, square
  roots, points and scalar reductions.
- `Primes`, `Gauss`, `PrimeTest`, `Residues`, `P256Certificate`, `P256Prime`, `P256Roots`: that the field modulus is
  prime, and what follows for inverses and squares.
- `P256Map`, `P256Sswu`: the map to the curve, on residues and on limbs.
- `Gf256`, `AesLayers`, `Aes`, `AesBlock`, `KeyWrap`, `Ccm`, `CcmLoop`, `Ccmp`, `CcmpFrame`, `Mem`, `Octets`: the
  field of AES, AES, key wrap, CCM and CCMP, each as a definition with its algebra and as the in-place routine.
  `KeyWrapShift`, `CcmFormat` and `CcmpFormat` tie them to the form that the standards give.
- `ShaStream`: the buffered hash contexts over an abstract compression function.
- `Sme`, `SmeRules`, `SmeSafety`, `SmeDevice`, `SmeRuns`, `Replay`, `DataPath`, `Handshake`, `HandshakeRuns`,
  `HandshakeRelabel`, `Association`: the state machine as a step function and field by field, what every run
  keeps, the record that the code updates and its runs, replay protection, one key epoch of data, the two-party
  handshake over two networks, and a whole association.
  Keys are symbolic: a derived key is the term naming its inputs, and an integrity code is valid exactly under
  the key it was made with.
- `Sae`: commit and confirm over an abstract commutative group.
- `Cursor`, `Tdls`, `TdlsRules`, `TdlsPeer`, `Kde`, `KdeBuild`, `Ric`, `Qos`, `UsbRx`: the peer link, the key data of the
  third handshake message, resource responses, admission control and receive aggregation.

A routine that works in place is an imperative method over arrays or fields whose contract ties its result
to a definition; the properties are lemmas about the definitions.

Six things that the proofs bring out about the code:

- The map to the curve never fails: the field modulus is prime, and one of the two candidates always has a square
  right-hand side (`P256Prime.ModulusIsPrime`, `P256Map.MapPasses`).
- The agreement of the handshake does not rest on the first message: the network may make up any M1, any
  management frame and any frame with a wrong code.
- `connected` is not the connected state: it is set exactly when the party has been connected and has acted
  on no deauthentication since (`SmeSafety.FlagIffUp`).
- A data frame carries its transmitter's address under its code, but the receiver does not look at it and
  both ends use one key: a party takes its own frame for its peer's when it is played back
  (`DataPath.ReflectedFrame`, and `DataPath.DeliveryFromBoth` for when that cannot happen).
- In the internal framing the kind of a handshake message is outside its code.  Over a network that changes
  it, the access point takes its own third message for the fourth, and the two ends may be connected with
  different group keys (`HandshakeRelabel` says exactly when they agree).
- A peer link is established whatever the two key lifetimes are, since each setup frame carries its sender's;
  a teardown carries none and is heeded exactly when they agree (`Tdls.TeardownNeedsLifetime`).

## Model

| member | source | states |
|---|---|---|
| Limbs.SubBorrow | src/core/rf_2a4m1_crypto.c:743-752 | limb-wise subtraction: the result is the difference plus 2^256 times the returned borrow, and the borrow says exactly whether the first number is smaller |
| Limbs.Compare | src/core/rf_2a4m1_crypto.c:754-760 | -1, 0 or 1 as the first 256-bit number is smaller, equal or larger, from two borrows |
| Limbs.SelectLimbs | src/core/rf_2a4m1_crypto.c:762-767 | the masked move leaves all limbs of one operand or of the other, by the low bit of the flag, whatever its other bits |
| Limbs.CondSubMod | src/core/rf_2a4m1_crypto.c:769-778 | subtracts the modulus exactly when the low bit of the extra carry is set or the value has reached it |
| Limbs.AddCarry | src/core/rf_2a4m1_crypto.c:780-791 | limb-wise sum with its carry: result plus carry times 2^256 is the sum |
| P256Repr.CancelRadix | src/core/rf_2a4m1_crypto.c:809-841 | the explicit inverse of 2^256 modulo p turns an equation t * 2^256 = a * b + q * p into t = a * b / 2^256 modulo p, without primality |
| P256Repr.StdMul | src/core/rf_2a4m1_crypto.c:809-845 | the Montgomery product of two representatives represents the product of the numbers |
| P256Repr.StdInjective | src/core/rf_2a4m1_crypto.c:741-741 | two reduced representatives are equal exactly when the numbers they stand for are |
| P256Field.AddRow | src/core/rf_2a4m1_crypto.c:809-841 | the inner loop adds a * b[i] to the accumulator without losing a carry |
| P256Field.ReduceRow | src/core/rf_2a4m1_crypto.c:809-841 | the reduction row adds the multiple of p that clears the low limb and shifts the accumulator down by one limb, exactly |
| P256Field.OuterBound | src/core/rf_2a4m1_crypto.c:809-841 | after every outer step the accumulator stays below a + p, so one conditional subtraction is enough |
| P256Field.Accumulate | src/core/rf_2a4m1_crypto.c:809-841 | eight outer steps give an accumulator t below a + p with t * 2^256 = a * b + q * p |
| P256Field.FeMul | src/core/rf_2a4m1_crypto.c:809-841 | for all 256-bit operands the result is congruent to a * b / 2^256 modulo p, and below p as soon as one operand is; on field elements it is the field product |
| P256Elem.FeAdd | src/core/rf_2a4m1_crypto.c:780-791 | (a + b) mod p whenever the sum is below 2p; on field elements the field sum |
| P256Elem.FeSub | src/core/rf_2a4m1_crypto.c:793-807 | (a - b) mod p; on field elements the field difference |
| P256Elem.FeToMont | src/core/rf_2a4m1_crypto.c:845-845 | takes any 256-bit number to the representative of its residue |
| P256Elem.FeFromMont | src/core/rf_2a4m1_crypto.c:847-851 | takes a representative back to the residue, below p |
| P256Elem.FeIsZero | src/core/rf_2a4m1_crypto.c:739-739 | 1 exactly for the number zero |
| P256Elem.FeEq | src/core/rf_2a4m1_crypto.c:741-741 | 1 exactly for equal numbers, whatever the limbs |
| P256Elem.ExponentTables | src/core/rf_2a4m1_crypto.c:1072-1080 | the exponent tables hold the exact numbers (p+1)/4 and (p-1)/2 |
| P256Elem.FePow | src/core/rf_2a4m1_crypto.c:853-863 | square and multiply computes a to the e in the field for every 256-bit exponent and every 256-bit base, reduced or not |
| P256Bytes.BeToFe | src/core/rf_2a4m1_crypto.c:1003-1010 | the limbs hold the big-endian integer of the 32 octets |
| P256Bytes.FeToBe | src/core/rf_2a4m1_crypto.c:1012-1019 | the 32 octets written hold the number big-endian, the rest of the buffer untouched |
| P256Point.OnCurveIsEquation | src/core/rf_2a4m1_crypto.c:1030-1041 | the factored right-hand side is the curve equation x^3 - 3x + b |
| P256Point.PointOnCurve | src/core/rf_2a4m1_crypto.c:1030-1041 | true exactly when the coordinates satisfy the curve equation |
| P256Point.FeIsSquare | src/core/rf_2a4m1_crypto.c:1082-1089 | true exactly for zero and for elements whose (p-1)/2-th power is one, which P256Roots.TestIffSquare shows to be the squares |
| P256Point.SqrtSquares | src/core/rf_2a4m1_crypto.c:1072-1091 | (a^((p+1)/4))^2 = a * a^((p-1)/2), hence a for every element that passes the square test, without primality |
| P256Point.FeSqrt | src/core/rf_2a4m1_crypto.c:1091-1091 | a square root of every element that passes the square test |
| P256Point.FeSgn0 | src/core/rf_2a4m1_crypto.c:1093-1098 | the parity of the number that the representative stands for |
| P256Point.PointValid | src/core/rf_2a4m1_crypto.c:1127-1139 | true exactly for two coordinates below p, not both zero, on the curve |
| P256Point.EvenRoot | src/core/rf_2a4m1_crypto.c:1276-1302 | the root that is kept is the even one |
| P256Point.PointFromX | src/core/rf_2a4m1_crypto.c:1276-1302 | succeeds exactly when x is below p and its right-hand side passes the square test; then the output keeps x, has even y and is a valid point; otherwise nothing is written |
| P256Prime.ModulusIsPrime | src/core/rf_2a4m1_crypto.c:725-725 | the field modulus is a prime number, by a certificate checked step by step |
| PrimeTest.PassesTest | src/core/rf_2a4m1_crypto.c:725-725 | the test behind it: a Gaussian integer of norm one whose power with exponent 2^(e-1) is -1 modulo p proves p prime when p + 1 = (m * 2^e + 1) * 2^e, m odd, is small enough |
| Gauss.Frobenius | src/core/rf_2a4m1_crypto.c:725-725 | a Gaussian integer raised to an odd prime is itself or its conjugate modulo that prime |
| P256Roots.PowerInverts | src/core/rf_2a4m1_crypto.c:865-872 | the (p-2)-th power of every element but zero is its inverse |
| P256Roots.TestIffSquare | src/core/rf_2a4m1_crypto.c:1082-1089 | the square test passes exactly for elements that have a square root |
| P256Roots.TestOfProduct | src/core/rf_2a4m1_crypto.c:1082-1089 | a product passes exactly when both factors or neither of them does |
| P256Roots.RecoverableIff | src/core/rf_2a4m1_crypto.c:1276-1302 | an x coordinate is accepted exactly when the curve has a point there |
| P256Map.RhsWithA | src/core/rf_2a4m1_crypto.c:1245-1254 | the right-hand side computed with A = -3 is that of the curve equation |
| P256Map.FirstCandidateLaw | src/core/rf_2a4m1_crypto.c:1224-1243 | the first candidate x solves 3 d x = b (d + 1) for the denominator d = Z^2 u^4 + Z u^2, whenever d is not zero |
| P256Map.ExceptionalCandidate | src/core/rf_2a4m1_crypto.c:1232-1236 | where the denominator is zero it solves 30 x = b |
| P256Map.SecondRhs | src/core/rf_2a4m1_crypto.c:1245-1254 | the right-hand side of the second candidate is (Z u^2)^3 times that of the first |
| P256Map.MapPasses | src/core/rf_2a4m1_crypto.c:1217-1262 | for every input the candidate that the map takes has a square right-hand side |
| P256Sswu.FeInv | src/core/rf_2a4m1_crypto.c:865-872 | the inverse in the field for every element but zero, and zero for zero |
| P256Sswu.Candidate | src/core/rf_2a4m1_crypto.c:1217-1262 | the first candidate of the map when its right-hand side is a square and the second otherwise, with a square root of that side |
| P256Sswu.Sswu | src/core/rf_2a4m1_crypto.c:1208-1274 | fails exactly for input not below p; for every other input the output is a valid point, with the x of the candidate taken and a y of the input's parity or zero |
| P256Scalar.FeReduceOnce | src/core/rf_2a4m1_crypto.c:1304-1307 | one conditional subtraction reduces every 256-bit number modulo p |
| P256Scalar.ReduceModP | src/core/rf_2a4m1_crypto.c:1309-1336 | accepts exactly 1 to 48 octets and returns their big-endian integer modulo p |
| P256Scalar.ScalarAddN | src/core/rf_2a4m1_crypto.c:1191-1206 | (a + b) mod n whenever the sum is below 2n, in particular for all a, b below n |
| P256Scalar.ScalarReduce | src/core/rf_2a4m1_crypto.c:1173-1189 | (v mod (n-1)) + 1 for every 256-bit v, hence a scalar from 1 to n-1 |
| P256Scalar.ScalarInRange | src/core/rf_2a4m1_crypto.c:1021-1028 | true exactly for scalars from 1 to n-1 |
| Gf256.GfMulLoop | src/core/rf_2a4m1_crypto.c:96-106 | the shift-and-add loop computes the product: the sum of a * x^i over the bits i of b |
| Gf256.MulCommutes | src/core/rf_2a4m1_crypto.c:96-106 | the product does not depend on the order of its factors |
| Gf256.MulAssociates | src/core/rf_2a4m1_crypto.c:96-106 | nor on how three factors are grouped |
| Gf256.MulDistributes | src/core/rf_2a4m1_crypto.c:96-106 | it distributes over addition on both sides |
| Gf256.MulUnitAndX | src/core/rf_2a4m1_crypto.c:96-106 | one is its unit, zero absorbs, and multiplying by x is the reducing doubling step |
| Gf256.Power256IsSame | src/core/rf_2a4m1_crypto.c:96-106 | squaring eight times returns every element |
| Gf256.InverseLaw | src/core/rf_2a4m1_crypto.c:108-116 | what the inversion computes times x is one for every x but zero, and it takes zero to zero |
| Gf256.NoZeroDivisors | src/core/rf_2a4m1_crypto.c:96-106 | a product is zero exactly when a factor is |
| Gf256.GfInvLoop | src/core/rf_2a4m1_crypto.c:108-116 | the repeated squaring computes the product of x^2, x^4, ..., x^128 |
| AesLayers.SboxInverse | src/core/rf_2a4m1_crypto.c:120-130 | the two substitution functions undo each other for every octet |
| AesLayers.StandardExamples | src/core/rf_2a4m1_crypto.c:96-164 | literal check only: products, substitutions and the mixed column of the worked examples of FIPS 197 |
| Aes.RoundKeyWord | src/core/rf_2a4m1_crypto.c:164-194 | column c of the state is added word 4 * round + c of the schedule, most significant byte first |
| Aes.RoundColumn | src/core/rf_2a4m1_crypto.c:164-194 | a round, column by column, is the substituted bytes of one diagonal times the matrix of 2, 3, 1, 1 - except in round 10 - plus one schedule word |
| Aes.FirstWords | src/core/rf_2a4m1_crypto.c:164-194 | encryption starts by adding words 0 to 3 |
| Aes.LastWords | src/core/rf_2a4m1_crypto.c:164-194 | and ends, after nine full rounds, with words 40 to 43 and no column mixing |
| Aes.StandardRound | src/core/rf_2a4m1_crypto.c:164-194 | literal check: the example of FIPS 197, appendix B, from its input to its second round |
| AesLayers.MulSmall | src/core/rf_2a4m1_crypto.c:196-226 | multiplying by 9, 11, 13 and 14 is the sum of one, two and three doublings that the numbers spell |
| AesLayers.InvMixUndoesMix | src/core/rf_2a4m1_crypto.c:164-226 | the inverse column mixing undoes the column mixing for every column |
| AesLayers.MixUndoesInvMix | src/core/rf_2a4m1_crypto.c:164-226 | and the column mixing undoes the inverse one |
| Aes.ShiftRowsInverse | src/core/rf_2a4m1_crypto.c:164-226 | the two row shifts undo each other |
| Aes.MixColumnsInverse | src/core/rf_2a4m1_crypto.c:164-226 | the two column mixings undo each other on whole states |
| Aes.DecMirrorsEnc | src/core/rf_2a4m1_crypto.c:164-226 | decryption passes through the states of encryption in reverse order |
| Aes.AesInverse | src/core/rf_2a4m1_crypto.c:164-238 | for every round-key schedule and every block, decryption undoes encryption and encryption undoes decryption |
| AesBlock.MixColumnsLoop | src/core/rf_2a4m1_crypto.c:164-194 | the in-place column loop computes the column mixing |
| AesBlock.InvMixColumnsLoop | src/core/rf_2a4m1_crypto.c:196-226 | the in-place column loop computes the inverse column mixing |
| AesBlock.EncryptBlock | src/core/rf_2a4m1_crypto.c:164-194 | the in-place rounds compute encryption, also when input and output are the same buffer |
| AesBlock.DecryptBlock | src/core/rf_2a4m1_crypto.c:196-226 | the in-place rounds compute decryption, also when input and output are the same buffer |
| Mem.ConstantTimeEq | src/core/rf_2a4m1_crypto.c:369-375 | true exactly for equal octet strings |
| KeyWrap.StepInverse | src/core/rf_2a4m1_crypto.c:304-367 | one unwrapping step undoes the wrapping step with the same counter, and the other way round |
| KeyWrap.WrapRoundTrip | src/core/rf_2a4m1_crypto.c:304-367 | unwrapping a wrapped key returns it, for every multiple of 8 octets from 16 up |
| KeyWrap.UnwrapRoundTrip | src/core/rf_2a4m1_crypto.c:304-367 | unwrapping returns a key exactly when wrapping that key gives the ciphertext |
| KeyWrap.WrapPasses | src/core/rf_2a4m1_crypto.c:304-334 | the two nested in-place loops compute the 6n wrapping steps |
| KeyWrap.UnwrapPasses | src/core/rf_2a4m1_crypto.c:336-367 | the two nested in-place loops compute the 6n unwrapping steps in reverse |
| KeyWrap.KeyWrapLoop | src/core/rf_2a4m1_crypto.c:304-334 | the whole routine with its length and capacity checks |
| KeyWrap.KeyUnwrapLoop | src/core/rf_2a4m1_crypto.c:336-367 | the whole routine with its length, capacity and integrity checks |
| KeyWrapShift.WrapIsShift | src/core/rf_2a4m1_crypto.c:304-334 | indexing the blocks gives what shifting the register of RFC 3394, section 2.2.1, gives in 6n steps from eight octets A6 |
| KeyWrapShift.MarkIsNumber | src/core/rf_2a4m1_crypto.c:304-334 | the octets added to the register in step t spell t modulo 2^64, most significant first |
| Ccm.CounterIsNumber | src/core/rf_2a4m1_crypto.c:486-559 | the two counter octets after i increments are i modulo 2^16 |
| Ccm.CtrTwice | src/core/rf_2a4m1_crypto.c:486-559 | applying the key stream twice gives the data back |
| Ccm.StreamIsBlocks | src/core/rf_2a4m1_crypto.c:486-559 | the octet-at-a-time chaining equals the block-wise one of section 2.2 of RFC 3610 from every fill of the block |
| CcmFormat.FirstBlockIs | src/core/rf_2a4m1_crypto.c:498-508 | the first block is the flags 64 * Adata + 8 * (8 - 2) / 2 + (2 - 1), the nonce, and the payload length as a 16-bit number |
| CcmFormat.MacIsChained | src/core/rf_2a4m1_crypto.c:486-559 | the code computed is plain block chaining from zero over the first block, the length-prefixed header and the payload, each padded with zeros to whole blocks |
| CcmFormat.TagIs | src/core/rf_2a4m1_crypto.c:550-559 | the tag is the first eight octets of that with the encryption of counter block 0 added |
| CcmFormat.CounterBlockIs | src/core/rf_2a4m1_crypto.c:523-532 | counter block i is the octet 1, the nonce and i modulo 2^16 |
| CcmFormat.CtrBlock | src/core/rf_2a4m1_crypto.c:523-549 | block k of the output is block k of the data with the encryption of counter block k + 1 added |
| CcmLoop.WriteBlock0 | src/core/rf_2a4m1_crypto.c:498-508 | the first authentication block |
| CcmLoop.AbsorbHeader | src/core/rf_2a4m1_crypto.c:511-521 | length-prefixed associated data chained from block boundary to block boundary |
| CcmLoop.BumpCounter | src/core/rf_2a4m1_crypto.c:529-532 | the carry loop takes counter block i to counter block i + 1 |
| CcmLoop.Payload | src/core/rf_2a4m1_crypto.c:523-549 | the in-place pass enciphers or deciphers every octet and chains the plaintext, for either direction and every length |
| CcmLoop.AesCcm | src/core/rf_2a4m1_crypto.c:486-559 | the routine computes counter mode on the data and the tag of the plaintext as sections 2.2 and 2.3 of RFC 3610 define them |
| Ccmp.ReadPnOfHeader | src/core/rf_2a4m1_crypto.c:623-670 | the packet number read from a CCMP header is the one written, modulo 2^48 |
| Ccmp.NonceUsesLow48 | src/core/rf_2a4m1_crypto.c:572-593 | the nonce depends on the packet number modulo 2^48 only |
| Ccmp.SealInverse | src/core/rf_2a4m1_crypto.c:614-691 | ciphertext and tag open to a payload exactly when they are that payload sealed |
| Ccmp.CcmpRoundTrip | src/core/rf_2a4m1_crypto.c:614-691 | decapsulating an encapsulated frame returns the payload and the packet number modulo 2^48, for every header of at least 24 octets, payload, key identifier and schedule |
| Ccmp.AcceptedIsEncapsulated | src/core/rf_2a4m1_crypto.c:614-691 | a frame that decapsulates is the encapsulation of its result exactly when its Protected bit is set and its CCMP header is as a sender writes it |
| Ccmp.NonceBinds | src/core/rf_2a4m1_crypto.c:572-593 | equal nonces mean equal transmitter and equal packet numbers modulo 2^48 |
| Ccmp.AadBinds | src/core/rf_2a4m1_crypto.c:595-611 | equal authenticated data mean equal masked type, flags and fragment number, equal addresses, and the same QoS identifier |
| CcmpFormat.HeaderLayout | src/core/rf_2a4m1_crypto.c:623-640 | where a CCMP header has the 48 bits of the packet number, the key identifier and the extended-IV bit |
| CcmpFormat.NonceLayout | src/core/rf_2a4m1_crypto.c:572-593 | the nonce is priority and management flag, transmitter address, and the 48-bit number most significant octet first |
| CcmpFormat.AadIff | src/core/rf_2a4m1_crypto.c:595-611 | two frames have the same authenticated data exactly when they agree on the fields that are to be protected: type, the flags not masked, addresses, fragment number, priority |
| CcmpFormat.ReceptionIs | src/core/rf_2a4m1_crypto.c:693-723 | an error unless the frame decapsulates into the room there is; then fresh exactly when the number has 48 bits and exceeds what the slot of its priority, or slot 16, has accepted |
| CcmpFrame.BuildAadNonce | src/core/rf_2a4m1_crypto.c:572-612 | the masked header fields and the nonce, built at a moving offset in a 30-octet buffer that never overflows |
| CcmpFrame.CcmpEncrypt | src/core/rf_2a4m1_crypto.c:614-653 | 0 and nothing written when the header is too short or the buffer too small, otherwise the encapsulated frame and its length |
| CcmpFrame.CcmpDecrypt | src/core/rf_2a4m1_crypto.c:655-691 | accepts exactly the frames that decapsulate and fit; a rejected frame leaves only zeros or old octets in the output |
| CcmpFrame.CcmpDecryptRx | src/core/rf_2a4m1_crypto.c:693-723 | integrity before replay: a bad frame leaves the replay counters alone, a stale one is rejected with its payload wiped, a fresh one moves its own counter; the number handed out is the one in the header, and without counters the frame is only deciphered |
| ShaStream.FewestZeros | src/core/rf_2a4m1_crypto.c:1625-1634 | the zeros written are the fewest that end the message 8 octets before a block boundary (section 5.1.1 of FIPS 180-4) |
| ShaStream.ExactLength | src/core/rf_2a4m1_crypto.c:1607-1643 | below 2^64 bits the length field is the exact bit count; beyond, it is the count modulo 2^64 |
| ShaStream.PadIs | src/core/rf_2a4m1_crypto.c:1625-1643 | the padded message octet by octet: message, 0x80, fewer than 64 zeros, the length in bits as a 64-bit big-endian number |
| ShaStream.PadInjective | src/core/rf_2a4m1_crypto.c:1625-1643 | different messages below 2^64 bits are padded differently |
| ShaStream.FoldSnoc | src/core/rf_2a4m1_crypto.c:1607-1623 | one block more is one application more of the compression function |
| ShaStream.HashCtx.Update | src/core/rf_2a4m1_crypto.c:1607-1623 | the context comes to represent the message extended by the data, whatever the fill of the buffer |
| ShaStream.HashCtx.PadToLength | src/core/rf_2a4m1_crypto.c:1864-1871 | from every buffer fill the padding loop ends, by a measure that wraps at the block boundary, with the length field next |
| ShaStream.HashCtx.FinalByUpdate | src/core/rf_2a4m1_crypto.c:1625-1643 | SHA-1's ending yields the compression function folded over the padded message |
| ShaStream.HashCtx.FinalInPlace | src/core/rf_2a4m1_crypto.c:1864-1884 | SHA-256's ending, which writes the length without counting it, yields the same fold |
| ShaStream.HashInPieces | src/core/rf_2a4m1_crypto.c:1607-1651 | any split of a message into updates followed by either ending hashes the message |
| Replay.CommitRules | src/core/rf_2a4m1_core.h:1712-1729 | accepting a packet number rules out that number and all smaller ones, in that slot and in no other |
| Replay.PnReplay.Reset | src/core/rf_2a4m1_core.h:1694-1700 | all slots unused |
| Replay.PnReplay.Check | src/core/rf_2a4m1_core.h:1712-1721 | accepts exactly a known slot, a number of at most 48 bits, above the highest seen |
| Replay.PnReplay.Commit | src/core/rf_2a4m1_core.h:1723-1729 | records the number in its slot; an unknown slot changes nothing |
| DataPath.BadMicChangesNothing | src/core/rf_2a4m1_sme.c:1074-1081 | a frame that fails its integrity code changes nothing, the replay counters included |
| DataPath.SentAreNumbered | src/core/rf_2a4m1_sme.c:2424-2474 | the frames of an epoch carry the packet numbers 1, 2, 3 and so on under the epoch's key |
| DataPath.HearStep | src/core/rf_2a4m1_sme.c:929-1106 | hearing a frame either changes no counter and hands nothing on, or commits an acceptable number of a frame under the right key |
| DataPath.HandedOnIff | src/core/rf_2a4m1_sme.c:929-1106 | whatever a connected receiver has heard, a frame is handed on exactly when code and size are right and its number was acceptable at first and exceeds that of every genuine frame of its slot heard since |
| DataPath.HandsOnWhatIsDue | src/core/rf_2a4m1_sme.c:929-1106 | so all that is handed on is a function of the counters at first and the frames heard |
| DataPath.InOrderDelivery | src/core/rf_2a4m1_sme.c:929-1106 | within one key epoch of fewer than 2^48 frames, over air that loses, duplicates, reorders and adds frames with wrong codes, what is handed on for a slot is an in-order, duplicate-free selection of what was sent, and nothing that is due is held back |
| DataPath.UndisturbedDelivery | src/core/rf_2a4m1_sme.c:929-1106 | over air that does nothing, a fresh receiver is handed everything sent that its size check lets through |
| DataPath.RequestedIsDelivered | src/core/rf_2a4m1_sme.c:929-1106 | over air that does nothing, a fresh receiver hands up exactly what was requested, in order: data up to 64 octets in slot 16, or in that of its priority, and peer-link bodies behind their header |
| DataPath.ReflectedFrame | src/core/rf_2a4m1_sme.c:929-1106 | a party's own frame of any kind, its own address in it, played back to it at once is handed on exactly when it fits and its number is still acceptable: the receiver does not look at the address |
| DataPath.FirstFrameReflected | src/core/rf_2a4m1_sme.c:929-1106 | so the first frame of an epoch, played back before anything else is received, is handed on if it fits |
| DataPath.DeliveryFromBoth | src/core/rf_2a4m1_sme.c:929-1106 | with the frames of both ends on the air, those handed on for a slot are in order and without duplicates, at each number the peer's or the party's own but never both, and a selection of the peer's exactly when each of the others comes with a number that was not acceptable at first or that an earlier genuine frame of the slot has reached |
| SmeRules.StepRules | src/core/rf_2a4m1_sme.c:2047-2422 | for every step of every party, field by field: exactly when each state is entered, each of the policy, address, nonce, counter and key fields changes and to what, and each handshake or management frame is sent |
| SmeRules.EarlyM1Answered | src/core/rf_2a4m1_sme.c:2010-2101 | a first message heard before association is kept, and the association response makes the station answer it |
| SmeRules.KeyBinds | src/core/rf_2a4m1_sme.c:344-365 | two derived keys are equal exactly when master key, the pair of addresses and the pair of nonces are |
| Association.EverybodyConnects | src/core/rf_2a4m1_sme.c:2010-2375 | any station and access point with one master key come up over air that delivers, from probing to the fourth message, even when the first message overtakes the association response: one pairwise key of both nonces, one group key, fresh counters |
| Association.DataPasses | src/core/rf_2a4m1_sme.c:2424-2474 | and then all data requested passes either way |
| SmeSafety.StepGood | src/core/rf_2a4m1_sme.c:2063-2422 | every step of either role, whatever it hears, keeps the connected state keyed and keys fresh, and touches the installed key in one of three ways |
| SmeSafety.ConnectedMeansKeyed | src/core/rf_2a4m1_sme.c:2190-2197 | in every run with fast transition off, the connected state implies both keys installed, a valid data key and an installed temporal key that is the derived one |
| SmeSafety.NoReuseIffWithinLimit | src/core/rf_2a4m1_sme.c:229-238 | in every run, re-installations included, no (temporal key, packet number) pair goes out twice exactly when no key has carried more than 2^48 frames |
| SmeSafety.NothingAcceptedTwice | src/core/rf_2a4m1_sme.c:1074-1106 | in every run, re-installations included, the packet numbers accepted in one slot under one key increase, so none is accepted twice |
| SmeSafety.DeliveredIsRecorded | src/core/rf_2a4m1_sme.c:929-1106 | whatever is handed on has the right code and enters that record with its key, slot and number |
| SmeSafety.FlagIffUp | src/core/rf_2a4m1_sme.c:862-884 | in every run the `connected` flag is set exactly when the party has been in the connected state and has acted on no deauthentication since, and the connected state implies the flag |
| SmeRuns.FlagOutlivesState | src/core/rf_2a4m1_sme.c:1894-1922 | for every station there is a run that ends in the failed state with the `connected` flag set |
| SmeRuns.RunDevice | src/core/rf_2a4m1_sme.c:2047-2474 | a run of the record through any list of frames and requests: connected means keyed, no two frames sent share key and packet number exactly when no key has carried more than 2^48, and the flag is as above |
| SmeSafety.EntersConnected | src/core/rf_2a4m1_sme.c:2063-2375 | a party becomes connected exactly on a third message above its counter (station) or a fourth one at its counter (access point), with a valid code, in the handshake state |
| SmeSafety.SentIsOnAir | src/core/rf_2a4m1_sme.c:2424-2474 | the pair that the history records is the one in the frame sent |
| SmeSafety.LeavingConnected | src/core/rf_2a4m1_sme.c:1894-1922 | of the ways out of the connected state only a deauthentication clears the `connected` flag; a refused status or a new scan leaves it set |
| SmeDevice.Device.InstallDataKey | src/core/rf_2a4m1_sme.c:229-238 | the same temporal key keeps the counters, another one resets them |
| SmeDevice.Device.ApOnAssocReq | src/core/rf_2a4m1_sme.c:2103-2127 | the handler takes the record to the state of the definition and sends its frames |
| SmeDevice.Device.ApOnM2 | src/core/rf_2a4m1_sme.c:2128-2189 | likewise for the fields of the record, which leave out the integrity and beacon keys; nonce and key are overwritten before the integrity code is checked |
| SmeDevice.Device.ApOnM4 | src/core/rf_2a4m1_sme.c:2190-2199 | likewise |
| SmeDevice.Device.StaAnswerM1 | src/core/rf_2a4m1_sme.c:2010-2045 | likewise; a nonce is drawn only for the first M1 after association |
| SmeDevice.Device.StaOnAssocResp | src/core/rf_2a4m1_sme.c:2267-2300 | likewise; an M1 kept from before association is answered at once |
| SmeDevice.Device.StaOnM1 | src/core/rf_2a4m1_sme.c:2301-2317 | likewise; an M1 before association is kept |
| SmeDevice.Device.StaOnM3 | src/core/rf_2a4m1_sme.c:2318-2375 | likewise; no field of the record changes unless state, counter, code, unwrapping and channel all pass (the integrity and beacon keys and the transition-disable bitmap are not among them) |
| SmeDevice.Device.OnDeauth | src/core/rf_2a4m1_sme.c:862-884 | likewise; ignored by a station without an association |
| SmeDevice.Device.Receive | src/core/rf_2a4m1_sme.c:2047-2081 | the dispatch, for the frames of the model: what a failed party, a refusal, a deauthentication and a connected party do before role and state are looked at |
| SmeDevice.Device.Perform | src/core/rf_2a4m1_sme.c:2047-2474 | one entry into the record, a frame or a request, is one step of the definition |
| SmeDevice.Device.SendData | src/core/rf_2a4m1_sme.c:2424-2440 | sends exactly in the connected state and within the size limit, under the next packet number |
| SmeDevice.Device.SendQos | src/core/rf_2a4m1_sme.c:2452-2474 | likewise with the user priority as identifier, or without when the peer has no quality of service |
| SmeDevice.Device.SendTdls | src/core/rf_2a4m1_sme.c:996-1009 | likewise for encapsulated peer-link frames |
| SmeDevice.Device.OnData | src/core/rf_2a4m1_sme.c:929-1106 | code first, replay second, delivery last |
| Handshake.OneMessagePerValue | src/core/rf_2a4m1_sme.c:2103-2189 | in every run each value of the access point's counter tags at most one first or third message |
| Handshake.OffersIff | src/core/rf_2a4m1_sme.c:2128-2189 | a third message is sent exactly on a second one for the current counter value, with the code of the key it leads to and an accepted channel |
| Handshake.SameKeys | src/core/rf_2a4m1_sme.c:344-365 | both ends derive the same key from the same nonces and addresses, whichever each calls its own |
| Handshake.StaStepGood | src/core/rf_2a4m1_sme.c:2010-2375 | what a station's step can amount to for the handshake: idle, answering a first message, or finishing on a third one |
| Handshake.ApStepGood | src/core/rf_2a4m1_sme.c:2103-2199 | what an access point's step can amount to: idle, offering a third message, or finishing on a fourth one |
| Handshake.StepInv | src/core/rf_2a4m1_sme.c:2063-2375 | the system's invariant is kept by every step of either party over the network |
| Handshake.Agreement | src/core/rf_2a4m1_sme.c:2103-2375 | in every run of one station and one access point over a network that loses, duplicates, delays and reorders frames and makes up any frame without a valid code but leaves a message its kind, whenever both are connected their pairwise key, group key and installed temporal key are equal |
| Handshake.FourMessagesConnect | src/core/rf_2a4m1_sme.c:2103-2375 | a compatible pair whose four messages all arrive ends up connected with the same keys |
| HandshakeRuns.CanConnect | src/core/rf_2a4m1_sme.c:2103-2375 | in every run, from any state with an associated station and a compatible access point that is neither connected nor failed, the run can go on until both are connected with the same keys |
| HandshakeRuns.SomeRunConnects | src/core/rf_2a4m1_sme.c:2103-2375 | any two parties with one master key have a run from their initial states that ends with both connected and the same keys |
| HandshakeRelabel.RelStepInv | src/core/rf_2a4m1_sme.c:2047-2375 | the invariant kept by every step over a network that also passes a message off as another kind |
| HandshakeRelabel.RelabelledAgreement | src/core/rf_2a4m1_sme.c:2047-2375 | over that network two connected parties agree on counter value and pairwise key exactly when the station has sent the fourth message for the access point's value and key, and then on group and installed key too |
| HandshakeRelabel.RelabellingBreaksAgreement | src/core/rf_2a4m1_sme.c:2190-2199 | a run over that network, from any initial states with one master key, that ends with both connected and different group keys |
| Sae.TimesMod | src/core/rf_2a4m1_crypto.c:1451-1477 | scalars count modulo the group order |
| Sae.PweOrderIndependent | src/core/rf_2a4m1_crypto.c:1424-1449 | both ends derive the same password element whichever address comes first |
| Sae.SharedIs | src/core/rf_2a4m1_crypto.c:1491-1509 | the shared point is own random times peer random times the password element |
| Sae.SaeAgreement | src/core/rf_2a4m1_crypto.c:1479-1572 | two ends with the same password token who accept each other's commit hold the same confirmation key, master key and key identifier, and each accepts the other's confirm (sections 3.3 and 3.4 of RFC 7664) |
| Sae.HonestCommitAccepted | src/core/rf_2a4m1_crypto.c:1491-1509 | in a group of prime order an honest peer's commit is accepted exactly when it does not mirror our own |
| Sae.CommitIff | src/core/rf_2a4m1_crypto.c:1451-1477 | in a group of prime order a commit succeeds exactly for a non-zero element, both randoms from 1 to n-1 and their sum above 1 modulo n |
| Sae.PeerCommitIff | src/core/rf_2a4m1_crypto.c:1491-1534 | whatever scalar and element a peer sends, it is accepted exactly when the scalar is from 1 to n-1, the element not zero, the pair not our own and the point not zero; the keys come from that point |
| Sae.SameCommitIff | src/core/rf_2a4m1_crypto.c:1491-1499 | two commits of one element coincide exactly when both randoms do |
| Sae.ExchangeFromInputs | src/core/rf_2a4m1_crypto.c:1424-1534 | from the inputs alone: both ends derive one element and commit, and unless both drew the same randoms both accept, with keys of the product of the randoms and the sum of all four |
| Sae.MaxMinIs | src/core/rf_2a4m1_crypto.c:1429-1440 | the address with the larger number comes first |
| Octets.PrecedesIsLess | src/core/rf_2a4m1_crypto.c:1429-1440 | comparing octet by octet from the first compares the big-endian numbers |
| Sae.Session.OrderMacs | src/core/rf_2a4m1_crypto.c:1429-1440 | the octet-wise comparison puts the larger address first |
| Sae.Session.CommitPwe | src/core/rf_2a4m1_crypto.c:1451-1477 | succeeds exactly when scalars are in range, the commit scalar is above one and the element exists, and leaves no keys |
| Sae.Session.CommitH2e | src/core/rf_2a4m1_crypto.c:1479-1489 | the same from the password token and the two addresses |
| Sae.Session.ProcessCommit | src/core/rf_2a4m1_crypto.c:1491-1534 | derives the keys from an accepted commit; a rejected one changes nothing |
| Sae.Session.Confirm | src/core/rf_2a4m1_crypto.c:1536-1555 | the confirm code over own values first |
| Sae.Session.VerifyConfirm | src/core/rf_2a4m1_crypto.c:1557-1572 | accepts exactly the peer's code, and nothing before a commit has been processed |
| Tdls.ElementsRoundTrip | src/core/rf_2a4m1_tdls.c:33-137 | the three closing elements parse back to what was built, whatever follows |
| Tdls.SetupRespRoundTrip | src/core/rf_2a4m1_tdls.c:247-298 | a setup response parses back to what was built |
| Tdls.SetupConfirmRoundTrip | src/core/rf_2a4m1_tdls.c:300-348 | a setup confirm parses back to what was built |
| Tdls.TpkSymmetric | src/core/rf_2a4m1_tdls.c:139-175 | the peer key does not depend on which nonce and which address each end calls its own |
| Tdls.MicCoversFrame | src/core/rf_2a4m1_tdls.c:177-203 | the code covers both addresses, the step and every field of the elements but itself |
| Tdls.SealedVerifies | src/core/rf_2a4m1_tdls.c:177-203 | a frame's code verifies although it covers the element that holds it |
| Tdls.RunKeepsInv | src/core/rf_2a4m1_tdls.c:416-559 | in every run of the handlers a peer that has a key has the one derived from its stored nonces and link, and setting up or established implies a key |
| Tdls.RejectedResponse | src/core/rf_2a4m1_tdls.c:454-506 | only a response whose code verifies under the key then stored changes the record; that nothing is stored without an answer fails exactly for an accepted new response that meets a buffer below 117 octets |
| Tdls.LinkEstablishes | src/core/rf_2a4m1_tdls.c:416-530 | from an initiator that has sent its request and an idle responder of the same link, handing over the generated response and confirm establishes both with the same key; the lifetimes need not agree |
| Tdls.TeardownNeedsLifetime | src/core/rf_2a4m1_tdls.c:532-559 | a teardown sealed with the link's key under its sender's lifetime is accepted exactly when that is the receiver's lifetime, and otherwise ignored, provided the code tells the two inputs apart |
| TdlsRules.EndsIff | src/core/rf_2a4m1_tdls.c:33-137 | the closing elements are parsed exactly from octets that begin with them, control octets and sub-elements being free |
| TdlsRules.CodeInputIs | src/core/rf_2a4m1_tdls.c:177-203 | the octets that the code is computed over, one by one |
| TdlsRules.TpkIs | src/core/rf_2a4m1_tdls.c:139-175 | the smaller nonce and the smaller address come first in the key derivation |
| TdlsRules.RequestEffect | src/core/rf_2a4m1_tdls.c:416-452 | an idle responder takes nonce and token of a request for its link, derives the key and sends the response, given octet by octet, if it fits |
| TdlsRules.OtherRequests | src/core/rf_2a4m1_tdls.c:416-452 | nothing else makes it do anything |
| TdlsRules.ResponseIff | src/core/rf_2a4m1_tdls.c:454-506 | an initiator takes exactly a response with status zero, its token, link and nonce, and the right code |
| TdlsRules.ResponseEffect | src/core/rf_2a4m1_tdls.c:454-506 | it then stores nonce and key and sends the confirm, given octet by octet, if it fits |
| TdlsRules.ConfirmIff | src/core/rf_2a4m1_tdls.c:508-530 | a responder becomes established exactly on a confirm with status zero, its token and link, and the right code; anything else leaves it as it was |
| TdlsRules.TeardownIff | src/core/rf_2a4m1_tdls.c:532-559 | without a key every teardown of the link is heeded, with one exactly those with the element and the right code |
| TdlsRules.SameLink | src/core/rf_2a4m1_tdls.c:396-414 | both ends of a link start with the same identifier |
| TdlsPeer.ReadElements | src/core/rf_2a4m1_tdls.c:114-137 | the cursor reads the closing elements as defined, sub-elements skipped |
| TdlsPeer.ReadSetupReq | src/core/rf_2a4m1_tdls.c:215-245 | the cursor parses a request as defined |
| TdlsPeer.ReadSetupResp | src/core/rf_2a4m1_tdls.c:267-298 | the cursor parses a response as defined |
| TdlsPeer.ReadSetupConfirm | src/core/rf_2a4m1_tdls.c:319-348 | the cursor parses a confirm as defined |
| TdlsPeer.ReadTeardown | src/core/rf_2a4m1_tdls.c:350-379 | the cursor parses a teardown as defined, with or without its optional element |
| TdlsPeer.PeerLink.OnSetupReq | src/core/rf_2a4m1_tdls.c:416-452 | the handler takes the record to the state of the definition |
| TdlsPeer.PeerLink.OnSetupResp | src/core/rf_2a4m1_tdls.c:454-506 | likewise; the key is derived aside and stored only after the code verifies |
| TdlsPeer.PeerLink.OnSetupConfirm | src/core/rf_2a4m1_tdls.c:508-530 | likewise |
| TdlsPeer.PeerLink.OnTeardown | src/core/rf_2a4m1_tdls.c:532-559 | likewise; once keyed, a teardown without a valid code is ignored |
| Cursor.Reader.Bytes | src/core/rf_2a4m1_core.h:1653-1662 | the next octets, or an error from here on |
| Qos.AdmitIff | src/core/rf_2a4m1_qos.c:229-263 | a stream is admitted exactly when its identifier is new, a slot is free and its time fits under the ceiling (or is zero) |
| Qos.RefusalChangesNothing | src/core/rf_2a4m1_qos.c:229-263 | a refused admission changes nothing |
| Qos.ReleaseNeverClamps | src/core/rf_2a4m1_qos.c:274-291 | the clamp in the release path is never taken |
| Qos.AdmitThenRelease | src/core/rf_2a4m1_qos.c:229-291 | admission adds its stream and touches no other; releasing it restores totals and streams |
| Qos.Conservation | src/core/rf_2a4m1_qos.c:197-298 | in every run each total is the medium time of the category's streams in use, identifiers are distinct, and no total exceeds the largest ceiling the category has had |
| Qos.Admission.SetAcLimit | src/core/rf_2a4m1_qos.c:214-219 | the method takes the table to the state of the definition |
| Qos.Admission.Find | src/core/rf_2a4m1_qos.c:221-227 | the first slot that holds the stream |
| Qos.Admission.AdmitStream | src/core/rf_2a4m1_qos.c:229-263 | the method takes the table to the state of the definition, with its result |
| Qos.Admission.ReleaseStream | src/core/rf_2a4m1_qos.c:274-291 | likewise |
| Kde.FindInList | src/core/rf_2a4m1_pmf.c:332-355 | whatever the list of elements and whatever padding follows, a finder returns the first match |
| Kde.GroupKeyLayout | src/core/rf_2a4m1_pmf.c:357-372 | where a group-key element has its identifier, packet number and key |
| Kde.KeyDataRoundTrip | src/core/rf_2a4m1_sme.c:2146-2188 | for every content and every combination of protection, beacon protection, channel validation and transition disable, each finder returns what the access point appended, or nothing where it appended nothing |
| Kde.KeyDataFits | src/core/rf_2a4m1_sme.c:2146-2188 | the list is a multiple of 8 octets, at most 104, and fits its 128-octet buffer before and after wrapping |
| Kde.KeyDataDelivered | src/core/rf_2a4m1_sme.c:2180-2184 | what the station unwraps is the list that the access point wrapped |
| KdeBuild.BuildKeyData | src/core/rf_2a4m1_sme.c:2146-2179 | the elements and the padding appended in place at a moving offset |
| KdeBuild.Pad | src/core/rf_2a4m1_sme.c:2172-2176 | the 0xdd marker and the zero fill up to the next multiple of eight |
| KdeBuild.GtkKdeFind | src/core/rf_2a4m1_sme.c:467-495 | the walk finds the group key element as defined |
| KdeBuild.IgtkKdeFind | src/core/rf_2a4m1_sme.c:511-539 | the walk finds the integrity key element as defined |
| KdeBuild.KdeFind | src/core/rf_2a4m1_pmf.c:332-355 | the common walk returns the offset of the first match, or that there is none |
| KdeBuild.BigtkKdeFind | src/core/rf_2a4m1_pmf.c:374-394 | the beacon integrity key; a longer key is rejected, not cut off |
| KdeBuild.OciKdeFind | src/core/rf_2a4m1_pmf.c:439-451 | the operating channel |
| KdeBuild.TdKdeFind | src/core/rf_2a4m1_pmf.c:482-492 | the transition-disable bitmap |
| Ric.TsRoundTrip | src/core/rf_2a4m1_qos.c:26-51 | packing and unpacking traffic-stream information loses nothing exactly when every field fits its bits |
| Ric.TsPackIs | src/core/rf_2a4m1_qos.c:26-51 | each field at its bit position |
| Ric.TspecRoundTrip | src/core/rf_2a4m1_qos.c:53-95 | a traffic specification with in-range information reads back as written |
| Ric.TspecLayout | src/core/rf_2a4m1_qos.c:53-95 | where the sizes and times of a specification are |
| Ric.ResponseRoundTrip | src/core/rf_2a4m1_roam.c:434-495 | for every list of at most four answers and every suffix, parsing returns the same identifier, statuses and granted specifications and consumes exactly the octets built |
| Ric.NoResponsePrefixesAnother | src/core/rf_2a4m1_roam.c:434-495 | no response is a proper beginning of another |
| Ric.BuildResponse | src/core/rf_2a4m1_roam.c:434-459 | 0 when there are too many resources or too little room, otherwise the response and its length |
| Ric.ReadAnswer | src/core/rf_2a4m1_roam.c:476-491 | one answer off the cursor, with every way it can be malformed |
| Ric.ReadResponse | src/core/rf_2a4m1_roam.c:461-495 | the cursor parses a response as defined, its position being the length consumed |
| UsbRx.UnwrapUndoesWrap | src/core/rf_2a4m1_usb_hal.c:220-271 | unwrapping a wrapped segment returns the descriptor and the payload padded to four octets |
| UsbRx.WrapLayout | src/core/rf_2a4m1_usb_hal.c:220-244 | a segment octet by octet: length and flag least significant first, descriptor, payload, zeros |
| UsbRx.SplitUndoesConcat | src/usb.c:1746-1777 | for every list of wrapped packets and every terminating tail the split yields exactly the segments in order, each unwrapping to its packet |
| UsbRx.RxWrap | src/core/rf_2a4m1_usb_hal.c:220-244 | the segment written out, or nothing when the length field or the buffer is too small |
| UsbRx.RxComplete | src/usb.c:1735-1771 | the walk over the transfer queues every whole segment |

## Left out

- AES key expansion: the round-key schedule is a parameter, so the inverse laws hold for every schedule.
- The compression functions of SHA-1 and SHA-256, HMAC, HKDF and PBKDF2: the compression function is a parameter.
- The Jacobian group law of the curve: an abstract group in `Sae` takes its place.
- Constant-time behaviour and memory wiping, except that a rejected frame's payload is zeroed.
- Buffer overlap: the in-place routines are stated for the overlaps that the code uses (same buffer for input and output of a block); other buffers are distinct.
- Fast transition, OWE and the SAE path of the state machine: authentication is open-system and the pairwise master key is fixed.
- The encoding of management and EAPOL frames, address filtering and block-acknowledgement, admission, peer-link and SA-query actions inside the state machine: a frame is a value, and a filtered frame counts as lost.
- Management-frame protection of deauthentication: a dropped deauthentication counts as lost, an honoured one is `Deauth`.
- The handshake's replay counter is unbounded; the code's 64-bit counter wraps after 2^64 messages.
- SmeSafety.EntersConnected: a frame's kind is part of its value; the internal framing keeps it in an octet outside the code, and a network that changes it is in HandshakeRelabel.
- DataPath.InOrderDelivery: stated for the frames of the other end; a party's own frames played back to it are in DataPath.DeliveryFromBoth.
- SmeDevice.Device.StaOnM3: the integrity and beacon keys and the transition-disable bitmap are not fields of the record; the code stores them from an unwrapped third message that holds a group key before the channel check can still reject it (rf_2a4m1_sme.c:2335-2360).
- SmeDevice.Device.ApOnM2: the integrity and beacon keys drawn and installed with the third message (rf_2a4m1_sme.c:2152-2166) are not fields of the record.
- SmeDevice.Device.Receive: the block-acknowledgement, admission, peer-link and SA-query frames that the code handles while connected are not frames of the model.
- Partial output: what a builder leaves in its buffer when it runs out of room is not stated, only that it reports failure.
- TDLS discovery and the teardown builder; the setup request is parsed but not built, as in the code, and the initiator starts with its request sent.
- The TDLS frame builders work on values: a capacity stands for the output buffer, and writing at a moving offset is not modelled there.
- Memory allocation, re-arming and counters of the receive callback; a segment that cannot be allocated is dropped by the code.
- USB control transfers, chip bring-up, calibration, firmware, module lifecycle and kernel glue: hardware and operating-system I/O.
