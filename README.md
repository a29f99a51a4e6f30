# ICE block cipher: the batched engine and the reference port

This project models the ICE ("Information Concealment Engine") block cipher as the
icefast crate implements it, and proves properties of the model.

There are two engines.

- **The fast engine** (`src/icefast.rs`) transforms a byte buffer in place, in ECB
  mode. It reads batches of B blocks into lanes of 32-bit halves. It runs the
  Feistel rounds lane by lane (`ice_f_batch`, `process_batch`). It picks the batch
  size and the serial or parallel path from the buffer length and the thread count
  (`encrypt`, `decrypt`). `dispatch` and `encrypt_par`/`decrypt_par` split the
  buffer into chunks of eight blocks, followed by a tail of single blocks.
- **The reference port** (`ice-reference/ice-thell.rs`) follows the original C code
  one block at a time (`ice_f`, `encrypt`, `decrypt`). Its `new(level)` builds the
  S-boxes and a zero schedule, and `key_set` installs a key afterwards.

Both engines share:

- the S-box construction (`gf_mult`, `gf_exp7`, `ice_perm32`, `sboxes_init`);
- the key schedule (`key_sched_build`, `key_set`);
- the level rule: level 0 is Thin-ICE with 8 rounds and one 8-byte key block;
  level n is n key blocks and 16n rounds.

The model is layered as follows.

- `words.dfy`: 32-bit words and their big-endian bytes.
- `gf.dfy`, `pbox.dfy` and `sbox.dfy`: GF(2^8) arithmetic, the bit permutation and
  the S-box table.
  - `Init` is proved to fill all 4 × 1024 entries by the published formula.
  - The permutation is proved to be a bijection on bit positions that preserves the
    population count.
  - The four S-boxes are proved to occupy disjoint bits of the word.
- `round.dfy`: the round function `F` (the expansions, the salt and the four
  lookups), and the facts that make the reference's unmasked indices agree with the
  fast engine's masked ones.
- `feistel.dfy`: the Feistel structure, generic in its round function. Decryption is
  proved to undo encryption for every schedule of even length.
- `blocks.dfy`: one 8-byte block (`CryptBlock`) and a buffer of whole blocks
  (`Transform`, ECB), with their round trips.
- `keyschedule.dfy`: `key_sched_build` and `key_set`, proved equal to a closed-form
  schedule. The forward groups at 8i and the mirrored groups at rounds − 8 − 8i tile
  the schedule exactly, and every subkey word is below 2^20.
- `icefast.dfy`: the fast engine as a class over the S-box array and the schedule
  array, with methods that change the buffer in place. `process_batch` and
  `dispatch` are proved equal to `Transform`.
- `icereference.dfy`: the reference engine as a second class. Its `encrypt` and
  `decrypt` are proved equal to `CryptBlock` on its schedule, and its `key_set` to
  the same closed-form schedule. So on the same key the two engines compute the same
  cipher: `Transform` on one block is `CryptBlock` (`Blocks.TransformOne`).

Where the Rust source differs from the original C code, the model follows the Rust
source. The fast engine masks its high S-box indices with `& 0x3ff`
(src/icefast.rs:152-155). Its key_set tests `levels == 1 && rounds == 8` for Thin-ICE
(src/icefast.rs:328). Its serial path runs `process_batch::<64>` on the whole buffer
(src/icefast.rs:210-212).

## Model

| member | source | states |
|---|---|---|
| GaloisField.GfMult | src/icefast.rs:56-69 | the shift-and-reduce loop of gf_mult returns the GF(2^8) product `GfProduct(a, b, m)` of its inputs |
| GaloisField.GfLoopStep | src/icefast.rs:58-67 | one turn of the gf_mult loop keeps `res ^ product(a, b)` unchanged, so the loop computes the product |
| GaloisField.GfExp7 | src/icefast.rs:71-79 | gf_exp7 of 0 is 0 |
| GaloisField.GfProductByte | src/icefast.rs:56-69 | for a byte and a degree-8 modulus the product stays a byte |
| GaloisField.GfExp7Byte | src/icefast.rs:71-79 | gf_exp7 of a byte is a byte, so the S-box input to the permutation fits its lane |
| GaloisField.GfProductOne | src/icefast.rs:56-69 | multiplying by 1 gives the other factor back |
| GaloisField.GfProductZero | src/icefast.rs:56-69 | multiplying 0 by anything gives 0 |
| GaloisField.XTimeByte | src/icefast.rs:62-66 | the shift-and-reduce step keeps a byte a byte under a degree-8 modulus |
| PBox.Perm32 | src/icefast.rs:81-90 | the loop of ice_perm32 returns `Permuted(x)`: bit j of x, if set, contributes `ICE_PBOX[j]` |
| PBox.Perm32Step | src/icefast.rs:83-88 | one turn of the loop adds the contribution of bit i and shifts x by one |
| PBox.PBoxSingleBits | src/icefast.rs:47-52 | every ICE_PBOX entry is a single bit, at position `Pos(j)` |
| PBox.InvUndoesPos | src/icefast.rs:47-52 | `Inv` undoes `Pos`: no two table entries name the same bit |
| PBox.PosUndoesInv | src/icefast.rs:47-52 | `Pos` undoes `Inv`: every bit position is some table entry |
| PBox.PermutedBit | src/icefast.rs:81-90 | bit k of the permuted word is bit `Inv(k)` of the input |
| PBox.PermutedMovesBit | src/icefast.rs:81-90 | bit j of the input lands at bit `Pos(j)` |
| PBox.PermutedInjective | src/icefast.rs:81-90 | the permutation is injective on words |
| PBox.PermPreservesPopCount | src/icefast.rs:81-90 | the permutation preserves the number of set bits |
| PBox.PermUpToBit | src/icefast.rs:83-88 | after n turns bit k of res is set exactly when `Inv(k) < n` and bit `Inv(k)` of x is set |
| PBox.PermUpToCount | src/icefast.rs:83-88 | after n turns res has as many set bits as the first n bits of x |
| SBoxes.Init | src/icefast.rs:109-137 | every entry `s[t][i]` is `perm32(gf_exp7(col ^ SXOR[t][row], SMOD[t][row]) << (24 - 8t))`, with col and row taken from i |
| SBoxes.ConstantsInRange | src/icefast.rs:33-45 | every ICE_SMOD entry is a degree-8 modulus and every ICE_SXOR entry a byte |
| SBoxes.CellOfRowCol | src/icefast.rs:111-112 | the row and column taken from an index below 1024 give that index back |
| SBoxes.RowColOfCell | src/icefast.rs:111-112 | every row below 4 and column below 256 is reached by exactly one index |
| SBoxes.LaneMasksDisjoint | src/icefast.rs:114-135 | the four byte-lane masks (`0xff << 24`, `<< 16`, `<< 8`, `<< 0`) are pairwise disjoint |
| SBoxes.EntriesDisjoint | src/icefast.rs:114-135 | a bit set in entries of two S-boxes means they are the same S-box, so the OR in ice_f never mixes them |
| SBoxes.LanePopCount | src/icefast.rs:114-135 | shifting a byte into its lane (`<< 24`, `<< 16`, `<< 8` or none) keeps its number of set bits |
| SBoxes.EntryPopCount | src/icefast.rs:114-135 | an S-box entry has as many set bits as its lane word and as the gf_exp7 value it was built from |
| Words.LoadStore | src/icefast.rs:167-168 | `u32::from_be_bytes` of `to_be_bytes(w)` is w |
| Words.StoreLoad | src/icefast.rs:197-198 | `to_be_bytes` of `from_be_bytes(b)` is b |
| Round.ExpandLeftAgree | ice-reference/ice-thell.rs:339 | the reference's `(p >> 14) \| (p << 18)` is the fast engine's `rotate_left(18)`, so both left expansions agree |
| Round.ExpandRightFields | src/icefast.rs:145 | tr is a 20-bit field: low ten bits of p, then bits 8..17 of p |
| Round.ExpandLeftFields | src/icefast.rs:146 | tl is a 20-bit field: bits 16..25 of p, then bits 24..31 and 0..1 of p |
| Round.SaltSwapsLeft | src/icefast.rs:148-149 | al takes tr's bit where the salt word is set and tl's bit elsewhere, then XORs the first subkey word |
| Round.SaltSwapsRight | src/icefast.rs:148-150 | ar takes tl's bit where the salt word is set and tr's bit elsewhere, then XORs the second subkey word |
| Round.SaltWidth | src/icefast.rs:145-150 | the salted halves are 20-bit exactly when the first two subkey words are |
| Round.HiUnmasked | ice-reference/ice-thell.rs:359-361 | on a 20-bit field the unmasked `x >> 10` is below 1024 and equals the masked index |
| Feistel.RoundUndo | src/icefast.rs:172-191 | a round on the swapped halves with the two subkeys reversed undoes a round |
| Feistel.BackwardUndoesForward | src/icefast.rs:172-192 | q backward pairs on the swapped output of all forward pairs give the swapped state after `Pairs − q` forward pairs |
| Feistel.ForwardUndoesBackward | src/icefast.rs:172-192 | the same with forward and backward exchanged |
| Feistel.DecryptEncrypt | src/icefast.rs:171-193 | decryption undoes encryption for every schedule of even length |
| Feistel.EncryptDecrypt | src/icefast.rs:171-193 | encryption undoes decryption for every schedule of even length |
| Blocks.ReadWrite | src/icefast.rs:195-198 | reading back the halves of a written block gives the halves |
| Blocks.WriteRead | src/icefast.rs:165-168 | writing the halves read from a block gives the block |
| Blocks.CryptBlockRoundTrip | src/icefast.rs:161-200 | decrypting an encrypted 8-byte block gives it back, and the other way round |
| Blocks.TransformOne | src/icefast.rs:306 | the ECB transform of one block is the block cipher on it |
| Blocks.TransformAt | src/icefast.rs:165-199 | block i of the transformed buffer is the cipher on block i of the input |
| Blocks.TransformAppend | src/icefast.rs:296-306 | transforming a concatenation of whole-block buffers transforms each part |
| Blocks.TransformRoundTrip | src/icefast.rs:161-200 | decrypting an encrypted buffer of whole blocks gives it back, and the other way round |
| KeySchedule.ShiftInNibble | src/icefast.rs:316-321 | the k loop rotates every register once, with the bit it takes out inverted into bit 15, and shifts one nibble into the subkey word |
| KeySchedule.BuildSubkey | src/icefast.rs:312-322 | slot n + i becomes `SubkeyOf(kb, kr)`, kb turns 15 times, and no other slot changes |
| KeySchedule.KeySchedBuild | src/icefast.rs:310-324 | the eight slots from n hold the group of subkeys for kb and keyrot, the rest are unchanged, and kb has turned 15 times per subkey |
| KeySchedule.LoadRegs | src/icefast.rs:338-342 | `kb[3 - j]` is the big-endian 16-bit word at key bytes `8i + 2j`, `8i + 2j + 1` |
| KeySchedule.BuildThin | src/icefast.rs:328-334 | the Thin-ICE branch fills the 8 slots with the forward group of the first key block |
| KeySchedule.BuildLevel | src/icefast.rs:338-344 | one key block places its forward group at 8i and its mirrored group at rounds − 8 − 8i |
| KeySchedule.BuildLevels | src/icefast.rs:337-345 | the level loop produces the full closed-form schedule |
| KeySchedule.SetKey | src/icefast.rs:326-346 | key_set leaves the schedule equal to `Schedule(key, size, rounds)` |
| KeySchedule.ScheduleFits | src/icefast.rs:314-322 | every subkey word takes five nibbles, so it is below 2^20 |
| KeySchedule.StartsCover | src/icefast.rs:343-344 | every slot of the schedule lies in a forward group at 8i or a mirrored group at rounds − 8 − 8i |
| KeySchedule.StartsDisjoint | src/icefast.rs:343-344 | no slot lies in two groups |
| KeySchedule.ThinIsFirstHalf | src/icefast.rs:328-334 | the Thin-ICE schedule is the first half of the level-1 schedule for the same key |
| KeySchedule.FullScheduleKeyBytes | src/icefast.rs:340-341 | the schedule depends only on the first 8·size key bytes |
| KeySchedule.ThinTestsAgree | ice-reference/ice-thell.rs:568 | for the shapes new produces, the reference's `rounds == 8` and the fast engine's `size == 1 && rounds == 8` pick the same branch |
| IceFast.LevelShape | src/icefast.rs:96-97 | level 0 is Thin-ICE (size 1, 8 rounds), level n has size n and 16n rounds; rounds is even and at least 8 |
| IceFast.Ice.constructor | src/icefast.rs:93-107 | new builds the S-boxes, sizes the schedule by the level and sets it to the key's schedule |
| IceFast.Ice.KeySet | src/icefast.rs:326-346 | key_set leaves the schedule equal to `Schedule(key, size, rounds)` and the S-boxes filled |
| IceFast.LookupF | src/icefast.rs:152-155 | the OR of the four S-box lookups is the round function F |
| IceFast.Ice.IceFBatch | src/icefast.rs:140-158 | every lane of ice_f_batch is F of that lane's input and the subkey |
| IceFast.XorLanes | src/icefast.rs:174-176 | the lane loop XORs each lane with its F value |
| IceFast.Ice.LoadLanes | src/icefast.rs:165-169 | lane i holds the big-endian halves of block i of the chunk |
| IceFast.Ice.RoundLanes | src/icefast.rs:184-191 | every lane goes through one Feistel round with the two subkeys |
| IceFast.Ice.EncryptPair | src/icefast.rs:183-192 | one pair of subkeys takes every lane from q forward rounds to q + 1 |
| IceFast.Ice.DecryptPair | src/icefast.rs:172-181 | one pair from the end takes every lane from q backward rounds to q + 1 |
| IceFast.Ice.EncryptLanes | src/icefast.rs:183-192 | `chunks_exact(2)` over the schedule runs every forward round on every lane |
| IceFast.Ice.DecryptLanes | src/icefast.rs:172-181 | `rchunks_exact(2)` runs every backward round on every lane |
| IceFast.Ice.RoundsLanes | src/icefast.rs:171-193 | each lane ends at the encryption or decryption of its halves, as DECRYPT says |
| IceFast.EmitBlock | src/icefast.rs:195-198 | writing r then l after the rounds gives `CryptBlock` of the input block |
| IceFast.Ice.StoreLanes | src/icefast.rs:195-199 | the chunk becomes the lanes' r and l words in big-endian order, and nothing else changes |
| IceFast.Ice.ProcessBatch | src/icefast.rs:161-200 | the B blocks at the offset become their ECB transform, and the rest of the buffer is unchanged |
| IceFast.ChunksDone | src/icefast.rs:265 | `par_chunks_exact_mut(c)` covers the largest multiple of c that fits, leaving less than one chunk |
| IceFast.Ice.Chunks | src/icefast.rs:296-302 | every whole chunk of B blocks in the range is transformed, and the remainder and everything outside are unchanged |
| IceFast.Ice.Blocks | src/icefast.rs:257-259 | encrypt_blocks::<B> and decrypt_blocks::<B> transform the first B blocks and leave the rest |
| IceFast.Ice.BlocksPar | src/icefast.rs:263-268 | encrypt_blocks_par::<B> transforms every whole chunk of B blocks and leaves the remainder |
| IceFast.Ice.Dispatch | src/icefast.rs:285-308 | dispatch transforms every block of a buffer of whole blocks: the chunks of eight blocks, then the tail one block at a time |
| IceFast.Ice.FinishTail | src/icefast.rs:305-307 | the tail loop transforms the remaining blocks, completing the ECB transform of the whole buffer |
| IceFast.Ice.CryptPar | src/icefast.rs:247-253 | encrypt_par and decrypt_par transform every block |
| IceFast.BatchForCases | src/icefast.rs:210-225 | the batch size is 32 or 64, and 32 exactly on the parallel path with more than 1 MiB per thread |
| IceFast.Ice.Crypt | src/icefast.rs:204-245 | encrypt and decrypt transform the covered prefix (512 bytes on the serial path, whole chunks on the parallel one) and leave the rest |
| IceFast.AsWrittenRoundTrip | src/icefast.rs:204-245 | decrypt with the same thread count undoes encrypt, and the other way round |
| IceFast.SerialLeavesPlaintext | src/icefast.rs:210-212 | on the serial path bytes 512 onward of a 1024-byte buffer come out unencrypted |
| IceFast.ParallelLeavesLastBlock | src/icefast.rs:218-225 | on the parallel path the last block of a 32776-byte buffer comes out unencrypted |
| IceFast.PutWord | src/icefast.rs:197 | `copy_from_slice(&w.to_be_bytes())` writes the word's four bytes and nothing else |
| IceReference.Ice.constructor | ice-reference/ice-thell.rs:270-297 | new(level) builds the S-boxes and a schedule of `rounds` zero subkeys, with the shape of the fast engine's new |
| IceReference.Ice.KeySize | ice-reference/ice-thell.rs:600-602 | key_size is eight bytes per level |
| IceReference.Ice.KeySet | ice-reference/ice-thell.rs:567-594 | key_set (Thin-ICE when `rounds == 8`) leaves the same schedule `Schedule(key, size, rounds)` as the fast engine |
| IceReference.ScheduleKeyBytes | ice-reference/ice-thell.rs:579-585 | key_set reads only the first `key_size()` bytes of the key |
| IceReference.IndexableIffNarrow | ice-reference/ice-thell.rs:359-362 | the unmasked indices stay inside the S-boxes exactly when the first two subkey words are below 2^20 |
| IceReference.ReferenceAgrees | ice-reference/ice-thell.rs:339-350 | the reference's expansions and salt are those of F, and its unmasked indices are F's indices |
| IceReference.Ice.RefF | ice-reference/ice-thell.rs:337-363 | ice_f as the reference writes it equals the fast engine's round function F |
| IceReference.Ice.EncryptTurn | ice-reference/ice-thell.rs:410-411 | one turn of the `step_by(2)` loop is one more forward Feistel round |
| IceReference.Ice.DecryptTurn | ice-reference/ice-thell.rs:467-468 | one turn of the reversed loop, with subkeys i then i − 1, is one more backward round |
| IceReference.Ice.EncryptRounds | ice-reference/ice-thell.rs:409-412 | the loop runs every forward round of the schedule |
| IceReference.Ice.DecryptRounds | ice-reference/ice-thell.rs:466-469 | the loop runs every backward round of the schedule |
| IceReference.WriteOut | ice-reference/ice-thell.rs:414-420 | the bytewise output loop writes r's bytes, then l's, most significant first |
| IceReference.Ice.EncryptBlock | ice-reference/ice-thell.rs:397-421 | encrypt of one block is `CryptBlock(keysched, ptext, false)`, the block the fast engine produces |
| IceReference.Ice.DecryptBlock | ice-reference/ice-thell.rs:455-477 | decrypt of one block is `CryptBlock(keysched, ctext, true)` |
| IceReference.BlockRoundTrip | ice-reference/ice-thell.rs:397-477 | the reference decrypt undoes its encrypt, and the other way round |

## Left out

- IceFast.Ice.Crypt: requires a buffer of at least 512 bytes on the serial path. There `process_batch::<64>` indexes `chunk[off..off + 8]` up to byte 512 and panics on a shorter buffer. A panic is not modelled, and the crate's own tests call encrypt on 8- and 16-byte buffers (see Findings).
- IceFast.Ice.Dispatch: requires a length that is a multiple of 8. This is the `assert!` at src/icefast.rs:286, which panics otherwise.
- IceFast.Ice.CryptPar: requires a length that is a multiple of 8, inherited from dispatch's `assert!`.
- IceFast.Ice.constructor: requires a key of at least `8 * size` bytes. key_set indexes the key out of bounds, and panics, on a shorter one.
- IceFast.Ice.KeySet: requires a key of at least `8 * size` bytes, for the same panic.
- IceReference.Ice.KeySet: requires a key of at least `key_size()` bytes, for the same panic.
- IceFast.Ice.ProcessBatch: requires the B blocks to lie inside the buffer. process_batch::<B> panics on a shorter chunk.
- IceFast.Ice.Blocks: requires the B blocks to lie inside the buffer, for the same panic.
- IceReference.Ice.EncryptBlock: requires every subkey word to be below 2^20. The unmasked `al >> 10` would panic otherwise. The zero schedule from new and every schedule key_set builds meet it.
- IceReference.Ice.DecryptBlock: the same requirement, for the same reason.
- IceReference.Ice.EncryptBlock: returns the block instead of writing through `&mut [u8; 8]`.
- IceReference.Ice.DecryptBlock: returns the block instead of writing through `&mut [u8; 8]`.
- IceReference.Ice.KeySize: returns a natural number. The `i32` conversion of key_size cannot fail for the sizes new produces and is not modelled.
- IceFast.Ice.BlocksPar: rayon's `par_chunks_exact_mut(..).for_each` is modelled as a sequential loop over the chunks. The chunks are disjoint and each is transformed independently, so the result is the same. Concurrency itself is not modelled.
- IceFast.Ice.Dispatch: its `parallel` flag only chooses between `par_chunks_exact_mut` and `chunks_exact_mut`, which have the same result here. The model has one sequential loop.
- IceFast.Ice.Crypt: `rayon::current_num_threads()` becomes the parameter `threads`.
- GaloisField.GfExp7: the chain of four products (b·b, then b·x, then x·x, then b·x) is modelled exactly, but it is not proved to equal b^7 in GF(2^8). That would need GfProduct to be commutative and associative on bytes, which is not proved. Only gf_exp7(0) = 0 and the byte bound (GfExp7Byte) are stated.
- GaloisField.GfMult: models gf_mult on its own. The S-box table is specified through the function `GfProduct`, which GfMult is proved to compute.
- The reference's `sboxes_initialised` flag is always false when new tests it, so new always builds the S-boxes. The flag is not modelled.
- The reference's S-box table and helpers (`gf_mult`, `gf_exp7`, `ice_perm32`, `sboxes_init`, `key_sched_build`) are identical to the fast engine's and are modelled once.
- The `IceSboxes` 64-byte alignment, `#[inline]` hints, `Clone`/`Debug` derives and the benchmarks have no effect on results and are not modelled.
- The known-answer vectors of tests/icefast_test.rs are not stated: evaluating the S-box table and eight rounds is beyond what the verifier computes.

## Findings

| source | as written | input that shows it | evidently intended | confidence | as-written member | corrected member |
|---|---|---|---|---|---|---|
| src/icefast.rs:210-212 | on the serial path encrypt (and decrypt at 233-235) calls `process_batch::<64>` on the whole buffer: it panics below 512 bytes and transforms only the first 512 bytes of a longer one | a 1024-byte buffer with one thread: bytes 512..1023 come out unchanged; an 8-byte buffer panics | every block of the buffer is transformed, as dispatch does | not executed | IceFast.SerialLeavesPlaintext | IceFast.Ice.CryptWhole |
| src/icefast.rs:218-225 | on the parallel path encrypt (and decrypt at 240-244) uses `par_chunks_exact_mut` with chunks of 32 or 64 blocks and never processes the remainder | a 32776-byte buffer with two threads: the last 8-byte block comes out unchanged | the remainder is transformed block by block, as dispatch's tail loop does | not executed | IceFast.ParallelLeavesLastBlock | IceFast.Ice.ChunksThenTail |
