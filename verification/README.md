# Verified models of srsRAN components

This project models eight parts of srsRAN in Dafny 4.11 and proves what they promise. Check it with
`dafny verify dfyconfig.toml`.

| part | files |
|---|---|
| the ZUC key-stream generator | `Zuc.dfy`, `Modular.dfy`, `Tables.dfy`, `ZucTestSets.dfy` |
| the SNOW 3G generator and the UIA2 MAC | `Snow3g.dfy`, `Snow3gAlpha.dfy`, `Snow3gTestSets.dfy`, `Gf2.dfy`, `Uia2.dfy`, `Words64.dfy`, `Uia2TestSet.dfy` |
| 128-EIA2, that is AES-CMAC | `Cmac.dfy` |
| 128-EEA1, 128-EEA3 and 128-EIA3 | `Eea.dfy`, `Eia3.dfy`, `CipherInputs.dfy` (keys and vectors, for all the ciphers) |
| the ASN.1 PER codec | `BitRefs.dfy` (cursors), `Per.dfy` and `PerFields.dfy` (the forms, on bit sequences), `PerForms.dfy` (which numbers are written, on how many bits), `PerCodec.dfy` and `PerGuards.dfy` (the code, over the cursors) |
| the two thread pools | `TaskThreadPool.dfy`, `ThreadPool.dfy`, `Totals.dfy` |
| MAC PDUs of 5G NR | `MacNrPdu.dfy` |
| the channel allocator | `ChannelMapping.dfy` |

`BitStrings.dfy`, `OctetStrings.dfy`, `Octet.dfy`, `Word32.dfy`, `Bytes.dfy` and `Options.dfy` hold what several
parts share: numbers, words and octets as bits, and the laws of exclusive or.

## How to read the model

- **Code and specification.** Code that updates state is a class or a method with loops, proved against a function
  of the old state; the results are lemmas about those functions. `ZucState.Initialize`, for one, leaves
  `Initialized(k, iv)`, and `InitializationInjective` speaks about `Initialized`.
- **ZUC and SNOW 3G.** ZUC cells are numbers (`& 0x7FFFFFFF` is `% 2^31`, `>> 31` is `/ 2^31`, with the reduction
  modulo 2^32 written out); the sixteen named cells are one sequence field. Everything else is bit vectors of the
  source's width. Injectivity is shown round by round, by recovering what each round hides.
- **UIA2 and CMAC.** 64-bit and 128-bit words are sequences of bits, most significant first. `Gf2.Remainder` and
  `Gf2.LongProduct` are schoolbook division and multiplication in GF(2)[x]. In `Cmac`, AES with its key is any
  function on blocks of sixteen octets; `Cmac.Tag` and the functions it uses are section 2.4 of RFC 4493, on bit
  strings. The source has the MAC generation twice, once in each overload; here both use `Cmac.Mac`.
- **EEA1, EEA3 and EIA3.** The two encryption algorithms differ only in their key stream; `Eea.Crypt` is what they
  share. EIA3 works on the bits of the 32-bit key-stream words.
- **Values.** Laws such as injectivity hold for many functions; what fixes the values is stated beside them. The
  published test sets are followed round by round: `ZucTestSets`, `Snow3gTestSets` and `Uia2TestSet` give what is new in
  each round, and a lemma for a round in general turns that into the next state. The layouts of keys, vectors and
  encodings are given as bits (`CipherInputs`) and as numbers (`PerForms`, `MacNrPdu.HeaderNumber`), for all inputs.
- **PER.** A `Put` function says what a pack function appends to the bits already written, a `Get` function what an
  unpack function reads at a position; `None` is an error code. The methods in `PerCodec` are the code over the
  mutable cursors, and their contracts equate them with these functions, room in the buffer included. Round trips
  are stated for every buffer that starts with what was written. `ceilf(log2f(x))` is the exact
  `CeilLog2`, which agrees with it for the ranges that floats represent. `BitRef.Valid` holds that bits behind the
  cursor in its octet are zero; every method keeps it.
- **Thread pools.** A step is one critical section, or one read of a status or one notification outside of it. Any
  number of workers and callers interleave; waiting threads may wake up spuriously. In `ThreadPool`, workers are set
  up one after the other, a caller starts or releases only a worker that a wait gave it, and waits only for a worker
  that is set up. The counts of starts and of calls of `work_imp` are history.
- **MAC PDUs.** `AddSdu` keeps the exact budget arithmetic, wrap-around of `remaining_len` included. The parser looks
  at up to two octets behind the payload, as the source does, so the array is two octets longer than the payload.
- **Channels.** Frequencies are real numbers; channel numbers are computed modulo 2^32.

## Where code and promise differ

- Unaligned constrained whole numbers: the result of `pack` is not looked at (asn1_utils.cc, line 455), so a range
  above 2^31 or a full buffer goes unnoticed (`Per.TooWide`, `Per.ConstrainedRoundTrip`).
- The aligned length form for 16384 and more is written but never read back (`Per.LongLengthIsLost`).
- The length prefix of a bounded bit string is written with log2(ub - lb) and read with ub - lb + 1 values
  (`Per.PrefixRoundTrip`).
- An open-type field is left in its middle if more than 32 bits remain, so unknown extension groups of more than four
  octets are not skipped (`PerFields.OpenFieldEnd` with j = 0).
- `pack_bytes` and `unpack_bytes` refuse what would just fit (`PerCodec.PackBytes`).
- `stop` of a `thread_pool` wakes waiting callers only if there is a worker (`ThreadPool.StopWakesCallers`).
- `is_valid_lcid` lets the reserved uplink LCIDs 47 to 51 through, against its comment (`MacNrPdu.ReservedLcids`).
- `add_sdu` checks the space for the length it is given, but writes the fixed length of an uplink CCCH
  (`MacNrPdu.MacNrSchPdu.AddSdu`).
- 128-EIA3 writes its MAC and returns its error code all the same (liblte_security.cc, line 596); return codes are not
  modelled.

## Model

| member | source | states |
|---|---|---|
| Zuc.AddMIsSum | srsRAN/lib/src/common/zuc.cc:70-75 | for cells up to 2^31-1 the 32-bit sum does not overflow, and the result is the sum modulo 2^31-1, never 0 unless both summands are |
| Zuc.Rotate31IsProduct | srsRAN/lib/src/common/zuc.cc:14-14 | a 31-bit rotation by k places is multiplication by 2^k modulo 2^31-1, and keeps cells in [1, 2^31-1] |
| Zuc.FeedbackIsRecurrence | srsRAN/lib/src/common/zuc.cc:114-127 | the new cell lies in [1, 2^31-1] and equals 2^15 s15 + 2^17 s13 + 2^21 s10 + 2^20 s4 + (1 + 2^8) s0 modulo 2^31-1, so the zero replacement of section 3.2 of the ZUC specification is never needed |
| Zuc.InitSum | srsRAN/lib/src/common/zuc.cc:78-111 | in initialization mode the new cell is that recurrence plus u, and again in [1, 2^31-1] |
| Zuc.RoundsAreValid | srsRAN/lib/src/common/zuc.cc:77-146 | both LFSR modes keep all sixteen cells in [1, 2^31-1] |
| Zuc.L1Injective | srsRAN/lib/src/common/zuc.cc:157-161 | the linear map L1 loses nothing |
| Zuc.L2Injective | srsRAN/lib/src/common/zuc.cc:163-167 | the linear map L2 loses nothing |
| Zuc.SubstituteInjective | srsRAN/lib/src/common/zuc.cc:179-180 | the four S-box look-ups of a word lose nothing |
| Zuc.RegistersInjective | srsRAN/lib/src/common/zuc.cc:170-182 | new R1 and R2 determine the words W1 and W2 they were made from |
| Tables.S0Permutes | srsRAN/lib/src/common/zuc.cc:19-33 | S0 is a permutation of the octets |
| Tables.S1Permutes | srsRAN/lib/src/common/zuc.cc:35-49 | S1 is a permutation of the octets |
| Zuc.InitRoundInjective | srsRAN/lib/src/common/zuc.cc:212-217 | an initialization round can be undone: states after it are equal if and only if they were before |
| Zuc.WorkRoundInjective | srsRAN/lib/src/common/zuc.cc:228-232 | a key-stream clock can be undone, in the same sense |
| Zuc.LoadInjective | srsRAN/lib/src/common/zuc.cc:190-210 | key loading maps different (key, iv) pairs to different states |
| Zuc.LoadIsValid | srsRAN/lib/src/common/zuc.cc:190-210 | all loaded cells lie in [1, 2^31-1] |
| Zuc.InitializationInjective | srsRAN/lib/src/common/zuc.cc:186-218 | two (key, iv) pairs lead to the same state after loading, 32 rounds and any number n of key-stream clocks if and only if they are equal |
| Zuc.ZucState.LfsrWithInitialisationMode | srsRAN/lib/src/common/zuc.cc:78-111 | shifts the cells and appends the recurrence plus u; nothing else changes |
| Zuc.ZucState.LfsrWithWorkMode | srsRAN/lib/src/common/zuc.cc:114-146 | shifts the cells and appends the recurrence; nothing else changes |
| Zuc.ZucState.BitReorganization | srsRAN/lib/src/common/zuc.cc:149-155 | the four words are those of the present cells |
| Zuc.ZucState.F | srsRAN/lib/src/common/zuc.cc:170-182 | returns W of the old registers and leaves their successors |
| Zuc.ZucState.Initialize | srsRAN/lib/src/common/zuc.cc:186-218 | leaves the state that the injectivity theorem speaks about |
| Zuc.ZucState.GenerateKeystream | srsRAN/lib/src/common/zuc.cc:220-233 | discards one word, fills exactly the first key_stream_len words (none if it is negative) with the key stream and leaves the state of len + 1 clocks |
| CipherInputs.LoadedCellBits | srsRAN/lib/src/common/zuc.cc:190-206 | each cell is loaded with the 8 bits of an octet of the key, the 15 bits of its constant, and the 8 bits of an octet of the vector, in this order |
| ZucTestSets.FirstTestSet | srsRAN/lib/src/common/zuc.cc:149-233 | for a key and a vector of zeros the key stream starts 27bede74 018082da, as the first test set of the ZUC specification says; this ties down the constants, the S-box entries that are looked up, L1, L2, the four words and the output word |
| Snow3g.MulXPowAdds | srsRAN/lib/src/common/s3g.cc:189-195 | exponents of s3g_mul_x_pow add, for every constant c |
| Snow3g.AllPeriodic | srsRAN/lib/src/common/s3g.cc:172-195 | under 0xa9, multiplying any octet by x 255 times gives it back |
| Snow3g.DivisionInvertsMultiplication | srsRAN/lib/src/common/s3g.cc:206-225 | w -> (w >> 8) ^ DIValpha(w & 0xff) inverts w -> (w << 8) ^ MULalpha(w >> 24) on all 32-bit words |
| Snow3g.MixInjective | srsRAN/lib/src/common/s3g.cc:244-252 | the byte mixing behind the S-boxes loses nothing, for both constants used |
| Snow3g.S1Injective | srsRAN/lib/src/common/s3g.cc:236-253 | s3g_s1 is injective on 32-bit words |
| Snow3g.S2Injective | srsRAN/lib/src/common/s3g.cc:264-281 | s3g_s2 is injective on 32-bit words |
| Tables.SPermutes | srsRAN/lib/src/common/s3g.cc:41-53 | S is a permutation of the octets |
| Tables.SQPermutes | srsRAN/lib/src/common/s3g.cc:25-39 | SQ is a permutation of the octets |
| Snow3g.NewCellInjective | srsRAN/lib/src/common/s3g.cc:292-303 | given the cells that stay and f, the new cell determines the cell that is shifted out |
| Snow3g.NextFsmInjective | srsRAN/lib/src/common/s3g.cc:314-324 | the new FSM registers determine the old ones |
| Snow3g.InitRoundInjective | srsRAN/lib/src/common/s3g.cc:364-367 | an initialization round can be undone: states after it are equal if and only if they were before |
| Snow3g.KeyRoundInjective | srsRAN/lib/src/common/s3g.cc:403-408 | a key-stream clock, with its LFSR step, can be undone, in the same sense |
| Snow3g.LoadInjective | srsRAN/lib/src/common/s3g.cc:335-358 | key loading maps different (K, IV) pairs to different states |
| Snow3g.InitializationInjective | srsRAN/lib/src/common/s3g.cc:335-368 | two (K, IV) pairs lead to the same sixteen cells and three registers after initialization and any number n of clocks if and only if they are equal |
| Snow3g.S3gState.ClockLfsr | srsRAN/lib/src/common/s3g.cc:292-303 | shifts the array in place by one and puts the new cell at its end |
| Snow3g.S3gState.ClockFsm | srsRAN/lib/src/common/s3g.cc:314-324 | returns the output of the old state and leaves the next registers |
| Snow3g.S3gState.Initialize | srsRAN/lib/src/common/s3g.cc:335-368 | leaves the state that the injectivity theorem speaks about |
| Snow3g.S3gState.GenerateKeystream | srsRAN/lib/src/common/s3g.cc:393-409 | clocks once without output, then fills exactly n words with the key stream |
| Snow3gAlpha.AlphaTimesIs | srsRAN/lib/src/common/s3g.cc:206-210 | MULalpha in closed form: each octet of the result is the sum of constants, one for every bit of the argument that is set |
| Snow3gAlpha.AlphaOverIs | srsRAN/lib/src/common/s3g.cc:221-225 | DIValpha in closed form, likewise |
| Snow3gTestSets.FirstTestSet | srsRAN/lib/src/common/s3g.cc:236-400 | for the key and the vector of the first test set of the SNOW 3G specification the key stream starts abee9704 7ac31373; this ties down loading, the S-box entries that are looked up, the exponents and constants, and the output word |
| Gf2.Mul64 | srsRAN/lib/src/common/s3g.cc:452-462 | computes the sum of V x^i over the set bits i of P |
| Gf2.MulLinear | srsRAN/lib/src/common/s3g.cc:452-462 | the product is linear over exclusive or in each argument |
| Gf2.MulOne | srsRAN/lib/src/common/s3g.cc:452-462 | 1 is a unit |
| Gf2.MulComm | srsRAN/lib/src/common/s3g.cc:452-462 | the product is commutative |
| Gf2.MulAssoc | srsRAN/lib/src/common/s3g.cc:452-462 | the product is associative |
| Gf2.MulIsProductModulo | srsRAN/lib/src/common/s3g.cc:419-462 | for every width and constant c it is the remainder, by long division, of the long product in GF(2)[x] modulo x^n + c; MUL64 is n = 64, c = 0x1b |
| Words64.MulXIsShift | srsRAN/lib/src/common/s3g.cc:419-425 | doubling any word of 64 bits is a shift, with 0x1b added if the top bit was set |
| Words64.Modulus | srsRAN/lib/src/common/s3g.cc:419-525 | the polynomial of UIA2: x^63 times x is x^4 + x^3 + x + 1, the number 0x1b |
| Uia2.EvalIsPolynomial | srsRAN/lib/src/common/s3g.cc:518-549 | the Horner loop evaluates the polynomial whose coefficients are the zero-padded 64-bit blocks at P |
| Uia2.TagIsAffine | srsRAN/lib/src/common/s3g.cc:518-568 | for fixed P, Q, z5 and length the MAC is affine over exclusive or of messages |
| Uia2.FullBlocks | srsRAN/lib/src/common/s3g.cc:524-531 | the loop over whole blocks is the Horner evaluation of those blocks |
| Uia2.LastBlock | srsRAN/lib/src/common/s3g.cc:533-546 | the last block is the remaining bits, masked, followed by zeros |
| Uia2.Evaluate | srsRAN/lib/src/common/s3g.cc:516-567 | the evaluation at P, exclusive-or length, times Q, its high word exclusive-or z5 |
| Uia2.F9 | srsRAN/lib/src/common/s3g.cc:484-568 | for 0 < length <= the bits of data the MAC is that tag for P, Q and z5 from the five SNOW 3G words of the key, count, fresh and dir |
| CipherInputs.KeyIsItsOctets | srsRAN/lib/src/common/s3g.cc:499-501 | the key words from K3 down to K0 are the octets of the key, in order |
| CipherInputs.Uia2Vector | srsRAN/lib/src/common/s3g.cc:503-508 | the vector is count and fresh, twice, with the bits 64 and 112 turned by the direction |
| Uia2TestSet.TestSet | srsRAN/lib/src/common/s3g.cc:484-568 | the tag that F9 returns for the first test set of UIA2, a message of 189 bits, is 2bce1820; this ties down the layout of key, vector, blocks and length |
| TaskThreadPool.KeepsWorkConserving | srsRAN/lib/src/common/thread_pool.cc:278-373 | every step keeps: in a running pool with a sleeping un-notified worker, queued tasks are at most notifications in flight plus workers about to look |
| TaskThreadPool.KeepsFlags | srsRAN/lib/src/common/thread_pool.cc:269-297 | worker_t::running is true exactly while the thread lives, and only a pending notify_all leaves a sleeper in a stopped pool |
| TaskThreadPool.EveryRunIsWorkConserving | srsRAN/lib/src/common/thread_pool.cc:278-373 | that bound on every run, and tasks leave the queue first in, first out |
| TaskThreadPool.EveryTaskRunsOnce | srsRAN/lib/src/common/thread_pool.cc:300-373 | on every run each pushed task is in exactly one place: queued, with exactly one worker, or run to its end once |
| TaskThreadPool.DrainedMeansDone | srsRAN/lib/src/common/thread_pool.cc:346-373 | a running pool with a worker in which nothing more can happen by itself has run exactly the pushed tasks, and all workers sleep |
| TaskThreadPool.QueueDrains | srsRAN/lib/src/common/thread_pool.cc:300-373 | left alone, a running pool takes at most DrainWork steps, after which every pushed task has been run |
| TaskThreadPool.StopEndsEveryThread | srsRAN/lib/src/common/thread_pool.cc:278-298 | once running is cleared, within StopWork steps, spurious wake-ups among them, every worker ends and stop returns |
| ThreadPool.EveryWorkerHasOneOwner | srsRAN/lib/src/common/thread_pool.cc:116-226 | on every run a worker is held by at most one caller, then neither queued nor working; WORKER_READY means held by somebody |
| ThreadPool.EveryStartIsOneWork | srsRAN/lib/src/common/thread_pool.cc:50-60 | on every run work_imp calls equal effective starts, less one exactly while a start is outstanding; never more, and at most one fewer even after stop |
| ThreadPool.StopIsFinal | srsRAN/lib/src/common/thread_pool.cc:91-114 | STOP is never left, and a stopped worker begins no further work |
| ThreadPool.StartedWorkerGetsToWork | srsRAN/lib/src/common/thread_pool.cc:121-135 | a started worker can always step, each step brings it closer to work_imp, and only stop takes it away from there |
| ThreadPool.NewlyIdleWakes | srsRAN/lib/src/common/thread_pool.cc:78-145 | whatever makes a worker idle or stops the pool wakes every caller that sleeps |
| ThreadPool.NobodySleepsForNothing | srsRAN/lib/src/common/thread_pool.cc:78-195 | on every run an un-notified sleeping worker is not in START_WORK or STOP; an un-notified sleeping caller finds no idle worker and its pool runs or has no workers |
| ThreadPool.StopWakesCallers | srsRAN/lib/src/common/thread_pool.cc:91-107 | stop leaves no caller asleep if and only if the pool has a worker or nobody slept |
| ThreadPool.StopStrandsCallersOfAnEmptyPool | srsRAN/lib/src/common/thread_pool.cc:91-107 | a concrete run: wait_worker, stop, and the caller of a pool without workers sleeps on |
| ThreadPool.StopFreesEveryThread | srsRAN/lib/src/common/thread_pool.cc:91-226 | a stopped pool with workers gets quiet within StopWork steps: every worker ended, every caller returned |
| ThreadPool.FirstIdle | srsRAN/lib/src/common/thread_pool.cc:147-156 | the idle worker with the lowest id, or none exactly if no worker is idle |
| BitRefs.BitRef.Pack | srsRAN/lib/src/asn1/asn1_utils.cc:135-164 | fails for 32 bits or more; else succeeds exactly if it fits and appends the n low bits of val, most significant first; earlier bits and octets behind the cursor stay, bits behind it in its octet are zero |
| BitRefs.BitRef.AlignBytes | srsRAN/lib/src/asn1/asn1_utils.cc:253-265 | moves to the next octet boundary over zeros |
| BitRefs.BitRef.AlignBytesZero | srsRAN/lib/src/asn1/asn1_utils.cc:315-329 | pads with zeros to the next octet boundary |
| BitRefs.OctetsAreFixed | srsRAN/lib/src/asn1/asn1_utils.cc:135-164 | equal written bits mean equal octets and cursor, whatever the buffers held before |
| BitRefs.CBitRef.Unpack | srsRAN/lib/src/asn1/asn1_utils.cc:166-193 | reads the next n bits as a number and advances by n exactly if n fits the type and the buffer; too wide a read leaves the cursor alone |
| BitRefs.CBitRef.AlignBytes | srsRAN/lib/src/asn1/asn1_utils.cc:253-265 | moves to the next octet boundary |
| PerCodec.PackBytes | srsRAN/lib/src/asn1/asn1_utils.cc:294-313 | appends the octets; refuses unless one octet more than needed is there |
| PerCodec.UnpackBytes | srsRAN/lib/src/asn1/asn1_utils.cc:231-251 | reads the octets, with the same margin |
| Per.OffsetRoundTrip | srsRAN/lib/src/asn1/asn1_utils.cc:448-480 | the offset in a range comes back in the unaligned form and all three aligned forms, from any bit offset, with the reader's cursor where the writer's was |
| Per.ConstrainedRoundTrip | srsRAN/lib/src/asn1/asn1_utils.cc:440-550 | a constrained whole number lb <= n <= ub of an 8, 16 or 32-bit type comes back with equal cursor if and only if n - lb < 2^31 (aligned) or the range is at most 2^31 (unaligned) |
| Per.TooWide | srsRAN/lib/src/asn1/asn1_utils.cc:453-455 | beyond that the aligned form fails, and the unaligned one reports success but writes nothing |
| PerForms.ConstrainedForm | srsRAN/lib/src/asn1/asn1_utils.cc:440-481 | which bits are written: the offset on as many bits as its range takes, or, aligned, on one octet for a range of 256 and two up to 65536, or behind a two-bit count on the fewest octets |
| PerCodec.PackConstrained | srsRAN/lib/src/asn1/asn1_utils.cc:440-481 | writes that form; the aligned form fails exactly if it does not fit, the unaligned one does not report it |
| PerCodec.UnpackConstrained | srsRAN/lib/src/asn1/asn1_utils.cc:508-550 | reads that form |
| Per.SmallRoundTrip | srsRAN/lib/src/asn1/asn1_utils.cc:576-601 | normally small numbers up to 63 come back |
| PerCodec.PackSmall | srsRAN/lib/src/asn1/asn1_utils.cc:577-586 | writes a small number, or fails above 63 or for lack of room |
| PerCodec.UnpackSmall | srsRAN/lib/src/asn1/asn1_utils.cc:588-601 | reads a small number, failing on the long form |
| PerForms.SmallForm | srsRAN/lib/src/asn1/asn1_utils.cc:577-586 | a small number up to 63, and no other, is written, as its number on seven bits |
| Per.LengthRoundTrip | srsRAN/lib/src/asn1/asn1_utils.cc:707-781 | length determinants below 16384 come back, aligned or not |
| Per.LongLengthIsLost | srsRAN/lib/src/asn1/asn1_utils.cc:707-781 | longer ones are refused by the unaligned writer and, if the aligned writer takes them, by the reader |
| PerForms.LengthForm | srsRAN/lib/src/asn1/asn1_utils.cc:707-739 | the bits written: n on 8 bits below 128, 0x8000 + n on 16 bits below 16384, and, only aligned, up to 65536 three octets with the mark 11 |
| PerForms.LengthIsShortest | srsRAN/lib/src/asn1/asn1_utils.cc:741-781 | no data that is read as the length n is consumed in fewer bits than are written for n |
| PerCodec.PackLength | srsRAN/lib/src/asn1/asn1_utils.cc:707-739 | writes a length determinant in place exactly if it fits |
| PerCodec.UnpackLength | srsRAN/lib/src/asn1/asn1_utils.cc:741-781 | reads a length determinant |
| Per.EnumRoundTrip | srsRAN/lib/src/asn1/asn1_utils.cc:379-424 | enumeration values with or without extension come back |
| PerCodec.PackEnum | srsRAN/lib/src/asn1/asn1_utils.cc:366-395 | writes an enumeration value, refusing values out of range |
| PerCodec.UnpackEnum | srsRAN/lib/src/asn1/asn1_utils.cc:397-424 | reads an enumeration value, refusing values out of range |
| PerForms.EnumForm | srsRAN/lib/src/asn1/asn1_utils.cc:366-395 | the bits written: the value on the bits of the root, with a bit in front if there is an extension marker, or 128 plus the index behind the root on one octet |
| Per.OctetsRoundTrip | srsRAN/lib/src/asn1/asn1_utils.cc:999-1019 | octet strings of fewer than 16384 octets come back |
| PerCodec.PackOctets | srsRAN/lib/src/asn1/asn1_utils.cc:999-1007 | writes the length and every octet, in order |
| PerCodec.UnpackOctets | srsRAN/lib/src/asn1/asn1_utils.cc:1009-1019 | reads the length and as many octets |
| PerForms.OctetsForm | srsRAN/lib/src/asn1/asn1_utils.cc:999-1007 | behind the length, eight bits for each octet, in order |
| Per.BitFieldRoundTrip | srsRAN/lib/src/asn1/asn1_utils.cc:1088-1172 | bit fields of a fixed size of 1 to 65536 bits come back |
| PerCodec.PackBitField | srsRAN/lib/src/asn1/asn1_utils.cc:1088-1105 | writes the octets from the last to the first, of the last only the bits in use |
| PerCodec.UnpackBitField | srsRAN/lib/src/asn1/asn1_utils.cc:1150-1172 | fills the octet array from the last to the first |
| PerForms.BitFieldForm | srsRAN/lib/src/asn1/asn1_utils.cc:1088-1105 | a bit field is the number whose octets are given from the least significant one on, on exactly its size in bits, aligned only above 16 bits |
| Per.PrefixRoundTrip | srsRAN/lib/src/asn1/asn1_utils.cc:1079-1081 | the unaligned length prefix of a bounded bit string comes back if and only if ub - lb is not a power of two |
| PerFields.FieldRoundTrip | srsRAN/lib/src/asn1/asn1_utils.cc:440-1447 | any one field within its range comes back with the reader where the writer was |
| PerFields.OpenRoundTrip | srsRAN/lib/src/asn1/asn1_utils.cc:1402-1447 | the body of an open type is read back from inside the field, and the reader ends at the end of the field |
| PerFields.AllRoundTrip | srsRAN/lib/src/asn1/asn1_utils.cc:440-1447 | any sequence of fields, open types nested to any depth, is self-delimiting: it decodes to the same values and ends at the encoder's cursor |
| PerFields.OpenFieldEnd | srsRAN/lib/src/asn1/asn1_utils.cc:1411-1447 | a body of k bits becomes ceil(k/8) octets; a reader that took j of them ends at the end of the field if and only if at most 32 bits are left, and else stays |
| PerForms.OpenForm | srsRAN/lib/src/asn1/asn1_utils.cc:1411-1434 | behind the length in octets the body and fewer than eight zeros |
| PerForms.OpenNeedsRoom | srsRAN/lib/src/asn1/asn1_utils.cc:1402-1434 | bodies of up to 1024 octets, and no longer ones, can be written |
| PerFields.GroupsRoundTrip | srsRAN/lib/src/asn1/asn1_utils.cc:1322-1395 | extension-group flags are written exactly if the last set index is below 64 (and there is one), and decode to the same map |
| PerForms.GroupsForm | srsRAN/lib/src/asn1/asn1_utils.cc:1332-1349 | the bits written: the number of groups less one on seven bits, then a flag for each, for at most 64 groups |
| PerFields.UnknownGroupsAreSkipped | srsRAN/lib/src/asn1/asn1_utils.cc:1374-1382 | any number of unknown groups of at most four octets each are skipped exactly |
| PerGuards.VarlengthFieldPackGuard.constructor | srsRAN/lib/src/asn1/asn1_utils.cc:1403-1409 | redirects the cursor to an empty buffer and remembers where it was |
| PerGuards.VarlengthFieldPackGuard.Close | srsRAN/lib/src/asn1/asn1_utils.cc:1411-1434 | puts the length and the padded body behind what was written before, and the cursor behind them |
| PerGuards.VarlengthFieldUnpackGuard.Close | srsRAN/lib/src/asn1/asn1_utils.cc:1443-1447 | moves the cursor by the rest of the field if that is at most 32 bits |
| PerGuards.ExtGroupsPackerGuard.Set | srsRAN/lib/src/asn1/asn1_utils.cc:1322-1330 | changes one flag of the map, growing it with absent groups |
| PerGuards.ExtGroupsPackerGuard.Pack | srsRAN/lib/src/asn1/asn1_utils.cc:1332-1349 | writes the number of groups and their flags |
| PerGuards.ExtGroupsUnpackerGuard.Unpack | srsRAN/lib/src/asn1/asn1_utils.cc:1384-1395 | reads the flags, absent groups filled in up to the number supported |
| PerGuards.ExtGroupsUnpackerGuard.Close | srsRAN/lib/src/asn1/asn1_utils.cc:1374-1382 | skips one field for each unknown group that is present |
| Cmac.Double | srsRAN/lib/src/common/liblte_security.cc:407-422 | the shift with carry and 0x87 is multiplication by x modulo x^128 + x^7 + x^2 + x + 1 |
| Cmac.Subkeys | srsRAN/lib/src/common/liblte_security.cc:403-423 | K1 and K2 are the subkeys of RFC 4493 |
| Cmac.PadMessage | srsRAN/lib/src/common/liblte_security.cc:447-455 | sets the one bit behind the message |
| Cmac.Mac | srsRAN/lib/src/common/liblte_security.cc:436-464 | for every block cipher, the first four octets of the CMAC of the bits in M |
| Cmac.Eia2 | srsRAN/lib/src/common/liblte_security.cc:380-470 | the first 32 bits of the AES-CMAC of section 2.4 of RFC 4493 over count, bearer, direction, 26 zeros and the message |
| Cmac.Eia2Bits | srsRAN/lib/src/common/liblte_security.cc:471-569 | the same over a message of single bits, of any length |
| Cmac.Unpack | srsRAN/lib/src/asn1/liblte_common.cc:146-154 | writes the bits of the octets, most significant first |
| Cmac.ValueToBits | srsRAN/lib/src/asn1/liblte_common.cc:59-67 | the eight bits of an octet, and nothing else changes |
| Cmac.FormsAgree | srsRAN/lib/src/common/liblte_security.cc:380-569 | both forms give the same MAC for a message and its unpacked bits |
| Cmac.TagOfOneBlock | srsRAN/lib/src/common/liblte_security.cc:436-464 | with a cipher that adds a constant the tag of any message of at most one block: a full one gets the first subkey, a padded one the second |
| Cmac.TagOfTwoBlocks | srsRAN/lib/src/common/liblte_security.cc:436-464 | and a block in front of it is encrypted once more |
| Eea.DecryptionInvertsEncryption | srsRAN/lib/src/common/liblte_security.cc:745-754 | decryption, which is encryption again, brings back the first msg_len bits of the message, and zeros behind them |
| Eea.Crypt | srsRAN/lib/src/common/liblte_security.cc:707-723 | the output is the first msg_len bits of message and key stream added up, then zeros to the octet boundary; it may be written over the message, and nothing behind it changes |
| Eea.ZeroTailingBits | srsRAN/lib/src/common/liblte_security.cc:1203-1207 | clears the bits behind the message in its last octet |
| Eea.Eea1 | srsRAN/lib/src/common/liblte_security.cc:668-733 | 128-EEA1 adds the SNOW 3G key stream of key, count, bearer and direction |
| Eea.Eea3 | srsRAN/lib/src/common/liblte_security.cc:832-902 | 128-EEA3 adds the ZUC key stream of key, count, bearer and direction |
| CipherInputs.Eea1Vector | srsRAN/lib/src/common/liblte_security.cc:695-699 | the vector of 128-EEA1 is count, bearer, direction and 26 zeros, as in 128-EIA2, twice |
| CipherInputs.Eea3Vector | srsRAN/lib/src/common/liblte_security.cc:851-868 | the vector of 128-EEA3 is the same bits |
| CipherInputs.StreamIsWords | srsRAN/lib/src/common/liblte_security.cc:707-720 | the octets added to the message are the bits of the key-stream words, in order |
| Eia3.GetWord | srsRAN/lib/src/common/liblte_security.cc:571-580 | the 32 bits of the key stream from bit i on |
| Eia3.GetBit | srsRAN/lib/src/common/liblte_security.cc:582-585 | bit i of the message, most significant first |
| Eia3.WindowsLinear | srsRAN/lib/src/common/liblte_security.cc:637-642 | the sum of key-stream windows over the set bits is linear in the message |
| Eia3.MacIsAffine | srsRAN/lib/src/common/liblte_security.cc:637-646 | for a fixed key stream the MAC is affine over exclusive or of messages |
| Eia3.MacOfZeros | srsRAN/lib/src/common/liblte_security.cc:637-646 | a message of n zeros gets the window behind it and the last word |
| Eia3.TurnedBit | srsRAN/lib/src/common/liblte_security.cc:637-642 | turning bit i of any message turns its code by exactly the 32 key-stream bits from i on |
| CipherInputs.Eia3Vector | srsRAN/lib/src/common/liblte_security.cc:605-624 | the vector of 128-EIA3 is count, bearer and 27 zeros, twice, with the bits 64 and 112 turned by the direction |
| Eia3.Eia3 | srsRAN/lib/src/common/liblte_security.cc:587-656 | 128-EIA3 is the sum of the windows at the set bits, the window behind the message and the last word, for messages of any number of bits |
| MacNrPdu.ReservedLcids | srsRAN/lib/src/mac/mac_nr_pdu.cc:43-47 | the check of an LCID agrees with the tables it cites if and only if it is not an uplink LCID from 47 to 51, which it lets through |
| MacNrPdu.MacNrSchSubPdu.ReadSubheader | srsRAN/lib/src/mac/mac_nr_pdu.cc:55-85 | reads the subheader at an octet, failing exactly on invalid LCIDs |
| MacNrPdu.MacNrSchSubPdu.SetSdu | srsRAN/lib/src/mac/mac_nr_pdu.cc:87-105 | sets the header form for the length; an uplink CCCH gets its fixed length |
| MacNrPdu.MacNrSchSubPdu.SetPadding | srsRAN/lib/src/mac/mac_nr_pdu.cc:107-113 | one octet of header, the rest padding |
| MacNrPdu.MacNrSchSubPdu.WriteSubPdu | srsRAN/lib/src/mac/mac_nr_pdu.cc:116-151 | writes the subheader and the SDU, or zeros, and no other octet |
| MacNrPdu.MacNrSchPdu.AddSdu | srsRAN/lib/src/mac/mac_nr_pdu.cc:299-324 | accepts exactly what the budget allows, appends its encoding, and keeps written plus remaining equal to pdu_len unless an uplink CCCH is longer than what is left |
| MacNrPdu.MacNrSchPdu.Pack | srsRAN/lib/src/mac/mac_nr_pdu.cc:210-223 | fills the PDU exactly to pdu_len, with one padding subPDU if anything remains |
| MacNrPdu.MacNrSchPdu.Unpack | srsRAN/lib/src/mac/mac_nr_pdu.cc:225-246 | terminates on every payload and appends the subPDUs that Parse finds |
| MacNrPdu.ParseTiles | srsRAN/lib/src/mac/mac_nr_pdu.cc:225-246 | on every payload the subPDUs found lie side by side from the first octet to where the parser stops |
| MacNrPdu.SubheaderRoundTrip | srsRAN/lib/src/mac/mac_nr_pdu.cc:55-105 | an SDU's subheader is read back if and only if it has fewer than 65536 octets and, for an uplink CCCH, the fixed length |
| MacNrPdu.HeaderNumber | srsRAN/lib/src/mac/mac_nr_pdu.cc:116-140 | the subheader as a number: one, two or three octets, the LCID with the F bit above it only for 256 octets and more, and the length most significant octet first |
| MacNrPdu.HeaderIsShortest | srsRAN/lib/src/mac/mac_nr_pdu.cc:55-105 | no subheader that is read as the same LCID and length of an SDU is shorter |
| MacNrPdu.FixedSizes | srsRAN/lib/src/mac/mac_nr_pdu.cc:173-203 | the sizes of the two CCCH kinds and of the control elements, in bits |
| MacNrPdu.ParseEncoded | srsRAN/lib/src/mac/mac_nr_pdu.cc:225-324 | what any sequence of regular SDUs and the padding leave in the buffer parses to the same SDUs in order, then one padding if needed, covering the payload exactly |
| MacNrPdu.PayloadsInPlace | srsRAN/lib/src/mac/mac_nr_pdu.cc:225-324 | and each item found points to the payload of its SDU |
| ChannelMapping.FailureIsJustified | srsRAN/lib/src/radio/channel_mapping.cc:34-55 | allocation succeeds if and only if the logical channel has none and some free channel supports the frequency |
| ChannelMapping.ReleasedIsTakenLast | srsRAN/lib/src/radio/channel_mapping.cc:34-66 | a released channel is taken again only if no channel that has been free for longer supports the frequency, and among those the first is taken |
| ChannelMapping.RunConserves | srsRAN/lib/src/radio/channel_mapping.cc:34-66 | over any run every channel keeps its number of copies, free plus allocated |
| ChannelMapping.RunKeepsDistinct | srsRAN/lib/src/radio/channel_mapping.cc:34-66 | distinct carriers stay distinct over any run |
| ChannelMapping.PortsAreDistinct | srsRAN/lib/src/radio/channel_mapping.cc:68-78 | after any run different (logical channel, antenna) pairs have different (device, port) pairs, if carriers are distinct and the channel numbers fit 32 bits |
| ChannelMapping.SharedPorts | srsRAN/lib/src/radio/channel_mapping.cc:68-78 | two pairs share a port if and only if their channel numbers agree modulo 2^32 |
| ChannelMapping.PortOfAntenna | srsRAN/lib/src/radio/channel_mapping.cc:68-78 | the answer for an allocated channel names its carrier; device times ports per device plus port is the channel number modulo 2^32, and the port is below the ports per device; otherwise all three are 2^32-1 |
| ChannelMapping.OverflowSharesPorts | srsRAN/lib/src/radio/channel_mapping.cc:73-73 | carriers 0 and 2^31 with two antennas have the same channel number |
| ChannelMapping.ChannelMap.AllocateFreq | srsRAN/lib/src/radio/channel_mapping.cc:34-55 | the loop finds the first fitting channel and moves it; on failure nothing changes |
| ChannelMapping.ChannelMap.ReleaseFreq | srsRAN/lib/src/radio/channel_mapping.cc:57-66 | moves the channel to the end of the free ones; fails exactly if there is none |
| ChannelMapping.ChannelMap.GetDeviceMapping | srsRAN/lib/src/radio/channel_mapping.cc:68-78 | the carrier, device and port of an antenna, or the error value |

## Left out

- Uia2.F9: lengths above 2^35 bits, because the 32-bit index `8 * i` of the source wraps around there, and length 0, for which its `D - 2` underflows; `dir` is any word.
- Cmac.Eia2: lengths for which the 32-bit bit count or the float division for the number of blocks is inexact; `direction` is 0 or 1.
- Per.ConstrainedRoundTrip: the rounding of `log2f`, which makes ranges just above a power of two beyond 2^24 one bit shorter than `CeilLog2`; signed integer types and 64-bit types, because reading more than 32 bits shifts a 32-bit value too far.
- Per.PrefixRoundTrip: the aligned prefix, which also differs in where it aligns, and the extension bit.
- ThreadPool.EveryWorkerHasOneOwner: workers set up with gaps, set up twice, or waited for before they are set up.
- ThreadPool.StopFreesEveryThread: workers set up after stop; they are never told to stop.
- TaskThreadPool.StopEndsEveryThread: a second start or stop while stop has not returned.
- MacNrPdu.MacNrSchPdu.AddSdu: lengths of 2^31 and more, for which the check itself wraps around.
- MacNrPdu.MacNrSchPdu.Unpack: `init_rx`, which only clears the fields.
- ChannelMapping.PortsAreDistinct: stated under the bound on channel numbers; SharedPorts has the exact condition.
- The thread pools are state machines over values, so locks and condition variables are not objects of the model; priorities, CPU masks and joining at the level of the operating system are not modelled.
- Reads of a status outside of the mutex are single steps; their being data races in C++ is not modelled.
- Eea.Crypt: length 0, for which the source computes a negative index.
- AES, 128-EEA2 and key derivation.
- PER: unconstrained and semi-constrained numbers, printable strings, sequences-of templates, the JSON writer and logging.
- What an unpack function leaves in its result when it fails.
- `advance_bits`, which only moves the cursor.
- Radio, network, configuration and logging code.
