# Private membership over three agents: a verified model

Holders join a federation with a Bloom filter of their set. Three agents (steward, peer 0, peer 1) keep the filters in
replicated shares, one tree cache each, merge them to a shared union when the manager orders a SYNC, and answer a
querier's membership question without opening anything but the answer. This project models that system in Dafny, states
what each part is for, and proves it.

- `Bgi16`, `Bgi16Eval`: the distributed point function. Key generation for all hash functions and draws, and the two
  evaluators with their in-place breadth expansion, explicit stack, pruning, double-buffered local walk and split over
  workers, proved to refine a five-line recursion.
- `OneBitStores`, `OneBitEval`: one-bit outputs, where the workers of an evaluation load and store words they may share,
  over all interleavings.
- `Aby3`, `Aby3Vec`, `Rvector`, `RingConv`: replicated sharing over Z_2^ell; every protocol as three local functions plus
  messages, proved to open to the plaintext operation for any zero-sum randomness, and the in-place vector methods proved
  equal to those functions.
- `ReshareRing`: the caller and the two worker threads of each party behind every resharing, as a state machine over all
  interleavings; this is where the assumption "a party receives what the next one sent" in the protocol theorems comes
  from.
- `Crng`, `CrngVectors`: the counter-mode generator with its cache, which supplies the zero-sum randomness.
- `BitVectors`, `Packing`, `PackVectors`: word-parallel arithmetic over Z_2 and packing for ELL 1 to 8.
- `HeapTree`, `CacheState`, `UnionTree`, `TreeMerge`, `MergeOrdering`, `TreeCache`, `CacheReload`: the tree cache of one
  agent, as functions of the whole state, as the object that updates itself in place (`TreeCache.Store`), saved,
  and reopened from disk.
- `TrioView`, `TrioMerge`, `TrioTree`, `TrioReopen`, `Federation`, `Runs`: three caches side by side and every run of
  joins, updates, quits, SYNCs and restarts.
- `Hash`, `Bloom`, `QueryMath`, `QueryPeers`, `Query`, `EndToEnd`: index hashing on both sides, filter generation, the
  query, and the theorem from the holders' sets to the querier's answer.
- `Ledger`, `ManagerDb`, `Scheduler`, `SchedulerSafety`, `Membership`, `ManagerRuns`: the manager's tables, its database
  methods in place, and the manager as a state machine over all interleavings of lock-held steps, transactions and
  unlocked reads.
- `Deployment`: the manager's machine and the agents' runs joined: every run of the manager without a crack induces a run
  of the federation, with the same users and the same tokens.
- `Ring`, `Blocks`, `Options`: modular arithmetic, 128-bit blocks as bit strings, optional values.

`dafny verify dfyconfig.toml` checks everything.

## How it is modelled

CCRH, AES and the counter-mode pads are arbitrary functions, every random draw is an argument, and a message is the value
the receiver goes on with. A ring word is an integer below its modulus; where the source computes on 32- or 64-bit words
the wrap-around is written out. Code that updates buffers, fields, maps or rows in place is a method over arrays or a
class whose contract ties the new state to a function of the old one; the theorems are about those functions.

Where code and documentation differ, or a promise needs a condition, the model follows the code:

- The tutorial says the two outputs of the point function combine by XOR; the code adds them in the ring
  (include/ref_impl/dpf/bgi16.hpp:792), and that is what is proved.
- `gen` computes its domain size in 32 bits, so with ELL_IN = 32 it refuses every point (`Bgi16.Gen`).
- The local hash of an empty element is 0 while the circuit hashes one zero block; `Hash.DigestsAgree` gives the exact
  condition, and the end-to-end theorems about stored elements ask for a non-empty element.
- `gen_bf` checks for a full buffer only after an element, so with a number of seeds that does not divide the capacity a
  write can fall outside; `Bloom.GenBf` gives the exact condition, and a holder always meets it (`Bloom.MatchingSeedsFit`).
- `bf_size` equal to the index ring's size is refused by the modulo circuit (`Query.RunQuery`).
- `rangeEval` with one-bit outputs writes shared words from several workers without synchronisation, so an element can be
  lost; `OneBitEval.RangeRightIff` gives the exact condition under which none is. The Python bindings offer two bits and
  more only.
- Reopening a cache does not always give back the same root: `CacheReload.ReopenIsIdentity` says exactly when. A cache
  reopened with no leaf has an uninitialised root until the next SYNC.
- A reservation can slip in after a crack, because the flag is not read again under the lock; nothing reserved that way
  is ever queued (`ManagerRuns.CrackedStaysQuiet`).
- An exception while ports are reserved leaves an operation ACTIVE with the lock free; its next poll starts it again. It
  is a step of the machine, and nothing is handed out twice (`ManagerRuns.SafeScheduling`).
- A restart is refused for a BUSY operation; a SYNC that was running leaves no trace in the tables, so
  `ManagerRuns.RestartInv` says nothing about the agents' trees after one.

## Model

| member | source | states |
|---|---|---|
| `EndToEnd.QueryAfterSync` | src/mpmt/agent_server.py:321-458 | For any element, any shares and draws, and any history of joins, updates, quits, SYNCs and restarts from empty caches that ends in a SYNC, the query opens to 1 exactly when each of the element's positions is set in the filter of at least one live holder, and to 0 when nobody is live |
| `EndToEnd.QueryDeployment` | src/mpmt/agent_server.py:321-458 | In every run of manager and agents together, right after a SYNC with no operation in progress, the query opens to 1 exactly when each position is set in the filter of a user the manager has as JOINED |
| `EndToEnd.StoredElementIsFound` | src/mpmt/querier.py:21-52 | A non-empty element of a live holder's set is never answered 0 |
| `EndToEnd.StoredElementIsSet` | src/mpmt/util.py:68-101 | The filter generated from a set has every position set that the querier's circuit computes for a non-empty element of the set |
| `EndToEnd.SameIndex` | include/common.hpp:110-169 | The querier's circuit and the holder's local hash name the same filter position for every non-empty element and every seed |
| `Bgi16.Gen` | include/ref_impl/dpf/bgi16.hpp:659-748 | For every hash function, all draws and every beta: keys come out exactly when alpha is below 2^n and n is not 32, and then the two evaluations add up modulo 2^ELL_OUT to beta at alpha and to 0 at every other point |
| `Bgi16.LevelInvariant` | include/ref_impl/dpf/bgi16.hpp:699-722 | The correction words of a level make the two states off the path equal in all 128 bits and keep the control bits on the path different |
| `Bgi16.TwoRunStep` | include/ref_impl/dpf/bgi16.hpp:697-737 | One generator level carries the two-run invariant from depth d to d + 1: states differ in the control bit on the path to alpha and are equal everywhere else |
| `Bgi16.LeafSum` | include/ref_impl/dpf/bgi16.hpp:739-745 | With the last correction word the two leaf values on the path add up to beta, although both parties compute on 64-bit words and party 1 negates by xor and subtract |
| `Bgi16.LeafCancel` | include/ref_impl/dpf/bgi16.hpp:265-273 | Equal leaf states give leaf values that cancel |
| `Bgi16.WordResidue` | include/ref_impl/dpf/bgi16.hpp:265-273 | Wrapping at 64 bits first changes no residue of the output ring |
| `Bgi16.KeysShareThePoint` | include/ref_impl/dpf/bgi16.hpp:659-748 | A finished two-run key pair with the last correction word is a sharing of the point function on the whole domain |
| `Bgi16.DomainSize` | include/ref_impl/dpf/bgi16.hpp:663-665 | The domain constant, truncated to 32 bits, is 0 exactly when n is 32, which is why every alpha is then refused |
| `Bgi16Eval.ExpandTask` | include/ref_impl/dpf/bgi16.hpp:169-177 | One task is replaced by its two children and no other slot changes |
| `Bgi16Eval.ExpandTaskLevel` | include/ref_impl/dpf/bgi16.hpp:165-179 | Going from the last task to the first, a whole layer is replaced in place by the next one; no task is overwritten before it is read |
| `Bgi16Eval.ExpandTasks` | include/ref_impl/dpf/bgi16.hpp:378-392 | The split array holds the node states of its layer in order |
| `Bgi16Eval.ExpandLevel` | include/ref_impl/dpf/bgi16.hpp:209-257 | Four entries at a time and then one by one, the other buffer row receives exactly the next layer |
| `Bgi16Eval.LocalBfs` | include/ref_impl/dpf/bgi16.hpp:426-481 | After the double-buffered levels the current row holds all leaf states below the node in order |
| `Bgi16Eval.WriteLeaves` | include/ref_impl/dpf/bgi16.hpp:483-508 | Exactly the wanted leaves of one local tree are written, each to its own output position, linear or wrapped |
| `Bgi16Eval.SlotOfLeaf` | include/ref_impl/dpf/bgi16.hpp:497-505 | Every wanted leaf has an output position inside the buffer, and the leaf is found back from it |
| `Bgi16Eval.LeafOfSlot` | include/ref_impl/dpf/bgi16.hpp:358-365 | Every output position belongs to exactly one wanted leaf, which is (bg + position) modulo the domain size |
| `Bgi16Eval.PruningIsSafe` | include/ref_impl/dpf/bgi16.hpp:414-422 | A subtree that is pruned when popped, or not pushed, contains no wanted leaf |
| `Bgi16Eval.Descend` | include/ref_impl/dpf/bgi16.hpp:511-552 | Replacing the popped node by its overlapping children keeps the stack in order and within its bound, and moves the walk closer to its end |
| `Bgi16Eval.WalkTask` | include/ref_impl/dpf/bgi16.hpp:403-554 | The explicit-stack walk of one task writes exactly the wanted leaves below the task and leaves everything else alone; the stack never exceeds ELL_IN - LOCAL_BFS_D + 2 entries and the walk ends |
| `Bgi16Eval.EvalThread` | include/ref_impl/dpf/bgi16.hpp:394-556 | A worker fills exactly the output positions of its tasks |
| `Bgi16Eval.SplitTasks` | include/ref_impl/dpf/bgi16.hpp:558-568 | The workers' intervals are non-empty, consecutive, cover all tasks and are at most as many as the cores; worker i starts at i times the rounded-up quotient |
| `Bgi16Eval.WorkerOf` | include/ref_impl/dpf/bgi16.hpp:558-568 | Every task lies in some worker's interval |
| `Bgi16Eval.WorkersKeep` | include/ref_impl/dpf/bgi16.hpp:398-556 | A worker completes its own positions and never undoes another worker's |
| `Bgi16Eval.Evaluate` | include/ref_impl/dpf/bgi16.hpp:367-583 | Whatever the number of cores and the order of the workers, each output element being a cell of its own, every output position holds its leaf's value; one-bit outputs, which share words, are the subject of OneBitEval |
| `Bgi16Eval.FullEval` | include/ref_impl/dpf/bgi16.hpp:142-339 | Full evaluation refines the pointwise recursion at every x, or refuses a buffer of another size untouched |
| `Bgi16Eval.RangeEval` | include/ref_impl/dpf/bgi16.hpp:344-597 | Range evaluation accepts exactly the in-range bounds with a buffer of the interval's length, wrapped or not, and then slot s holds the value at (bg + s) modulo the domain size, each element being a cell of its own; for one-bit outputs with several workers OneBitEval.RangeRightIff says when the same holds |
| `OneBitStores.RightIffApart` | include/rvector.hpp:838-856 | Workers that store bits by loading and storing whole words leave the right bits in every interleaving and from every buffer if and only if no two of them have elements in one word |
| `OneBitStores.LostUpdate` | include/rvector.hpp:838-856 | Two workers with elements in one word have a complete run in which one of the elements ends up wrong |
| `OneBitEval.RangeRightIff` | include/ref_impl/dpf/bgi16.hpp:497-596 | One-bit range evaluation comes out right in every interleaving of its workers if and only if bg is a multiple of 64 or the window is a single worker's, which one division decides |
| `OneBitEval.FullAlwaysRight` | include/ref_impl/dpf/bgi16.hpp:263-338 | One-bit full evaluation always comes out right |
| `OneBitEval.RightBits` | include/ref_impl/dpf/bgi16.hpp:483-508 | Right bits are the values of the reference evaluator |
| `OneBitEval.AscendingPlan` | include/ref_impl/dpf/bgi16.hpp:483-508 | Storing each worker's wanted leaves in ascending order is such a plan, so the hypotheses can be met |
| `OneBitEval.OddWindowLoses` | include/ref_impl/dpf/bgi16.hpp:497-596 | For instance the window from 1 to 511 of a domain of 512 on two cores can lose a bit |
| `Aby3.ShareCorrect` | include/ref_impl/shr_rep3/aby3.hpp:151-190 | Whoever deals, share and recvShare give a consistent replicated sharing of the dealt value |
| `Aby3.ReshareMeaning` | include/ref_impl/shr_rep3/aby3.hpp:212-238 | Sending this to the previous party turns additive shares into a consistent replicated sharing of their sum |
| `Aby3.RevealAllCorrect` | include/ref_impl/shr_rep3/aby3.hpp:341-370 | With the one missing share P0 opens to the shared value |
| `Aby3.LinearCorrect` | include/ref_impl/shr_rep3/aby3.hpp:399-427 | Local addition and subtraction stay consistent and open to the ring sum and difference |
| `Aby3.MulCorrect` | include/ref_impl/shr_rep3/aby3.hpp:429-444 | For every zero-sum randomness multiplication gives a consistent sharing of the ring product |
| `Aby3.DotTerms` | include/ref_impl/shr_rep3/aby3.hpp:475-490 | The nine wide inner products add up to the inner product of the reduced sums modulo the ring |
| `Aby3.DotCorrect` | include/ref_impl/shr_rep3/aby3.hpp:475-490 | The inner product protocol opens to the inner product of the two plaintext vectors of any length |
| `Aby3Vec.LinearVecCorrect` | include/ref_impl/shr_rep3/aby3.hpp:399-427 | Vector addition and subtraction stay consistent and are the element-wise ring operations on the plaintext |
| `Aby3Vec.HadamardCorrect` | include/ref_impl/shr_rep3/aby3.hpp:446-473 | The element-wise product stays consistent and opens to the product at every index |
| `Aby3Vec.DealCorrect` | src/mpmt/set_holder.py:24-69 | A filter dealt by the holder is a consistent sharing of the filter |
| `Aby3Vec.MergeCorrect` | src/mpmt/agent_server.py:183-194 | a + b - a * b over Z_2, shared, opens to the disjunction at every index and stays consistent |
| `Aby3Vec.AddVectors` | include/ref_impl/shr_rep3/aby3.hpp:399-412 | One party's in-place vector addition, the output possibly one of the inputs, is the local function on the old values |
| `Aby3Vec.SubVectors` | include/ref_impl/shr_rep3/aby3.hpp:414-427 | The same for subtraction |
| `Aby3Vec.Hadamard` | include/ref_impl/shr_rep3/aby3.hpp:446-473 | With the output's second buffer as scratch space a party sends exactly its masked cross terms; an output that is an input is refused and nothing changes |
| `Aby3Vec.ShareVector` | include/ref_impl/shr_rep3/aby3.hpp:167-181 | The dealer keeps and sends its old vector plus its draw, even if the vector is the output's second buffer; the first buffer is refused |
| `Aby3Vec.RecvShareVector` | include/ref_impl/shr_rep3/aby3.hpp:198-206 | A receiver keeps and sends its draw |
| `Aby3Vec.DotVectors` | include/ref_impl/shr_rep3/aby3.hpp:475-490 | One party's share of the inner product before resharing |
| `Aby3Vec.Merge` | src/mpmt/agent_server.py:183-194 | The merge primitive in its two buffers computes the local merge function and leaves its inputs alone |
| `Rvector.VecAdd` | include/rvector.hpp:936-943 | Element-wise ring addition with any aliasing of the output, or a size mismatch that changes nothing |
| `Rvector.VecSub` | include/rvector.hpp:945-952 | Element-wise ring subtraction with any aliasing of the output, or a size mismatch that changes nothing |
| `Rvector.VecHadamard` | include/rvector.hpp:954-961 | Element-wise ring product with any aliasing of the output, or a size mismatch that changes nothing |
| `Rvector.VecDot` | include/rvector.hpp:1374-1404 | The wide accumulator reduced once at the end is the ring inner product |
| `ReshareRing.StepInv` | include/ref_impl/shr_rep3/aby3.hpp:906-1003 | Every step of a caller, send worker or receive worker keeps the flags, offsets and channel contents of all three parties in agreement |
| `ReshareRing.CallsDeliver` | include/ref_impl/shr_rep3/aby3.hpp:109-149 | In every reachable state of every interleaving each completed call has returned exactly the next party's buffer of the same call |
| `ReshareRing.NeverStuck` | include/ref_impl/shr_rep3/aby3.hpp:931-1003 | However little the channels hold, some thread can move as long as calls are outstanding |
| `ReshareRing.StepAdvances` | include/ref_impl/shr_rep3/aby3.hpp:931-1003 | Every step advances the count of control steps and bytes |
| `ReshareRing.BehindBounded` | include/ref_impl/shr_rep3/aby3.hpp:109-149 | That count is bounded by the calls and their sizes |
| `ReshareRing.RunsComplete` | include/ref_impl/shr_rep3/aby3.hpp:109-149 | From the start every run is finite, and a run that cannot be continued has completed all calls of all parties with the right buffers |
| `ReshareRing.BufferFull` | include/ref_impl/shr_rep3/aby3.hpp:968-1003 | A receive buffer that is full is the next party's message |
| `RingConv.Round1Correct` | include/ref_impl/shr_rep3/aby3.hpp:497-546 | The first round is a consistent sharing of the exclusive or of the first two bits |
| `RingConv.Round2Correct` | include/ref_impl/shr_rep3/aby3.hpp:547-605 | The second round adds in the third bit |
| `RingConv.ConvCorrect` | include/ref_impl/shr_rep3/aby3.hpp:492-605 | For every sharing of a bit and every zero-sum randomness the result is a consistent sharing over Z_2^ELL_TO of that bit |
| `RingConv.Round1Vector` | include/ref_impl/shr_rep3/aby3.hpp:620-665 | The in-place first round of one party equals the scalar round at every index |
| `RingConv.Round2Vector` | include/ref_impl/shr_rep3/aby3.hpp:666-730 | The in-place second round of one party equals the scalar round at every index |
| `RingConv.ConvVector` | include/ref_impl/shr_rep3/aby3.hpp:607-730 | The vector conversion of one party sends and stores at every index what the scalar conversion does |
| `RingConv.ConvVecCorrect` | include/ref_impl/shr_rep3/aby3.hpp:607-730 | The three parties' converted vectors are a consistent sharing over the larger ring of the same bits |
| `Crng.BitPadsCancel` | include/ref_impl/shr_rep3/aby3.hpp:737-751 | A pad bit read by the three parties at one position sums to zero modulo 2 |
| `Crng.BytePadsCancel` | include/ref_impl/shr_rep3/aby3.hpp:752-765 | A masked pad byte read by the three parties at one position sums to zero modulo 2^ELL |
| `Crng.PadNeverReused` | include/ref_impl/shr_rep3/aby3.hpp:737-896 | Over any sequence of bit, byte and vector draws below 2^128 counters no pad bit is consumed twice and no counter under two interpretations |
| `Crng.Generator.DrawAll` | include/ref_impl/shr_rep3/aby3.hpp:737-896 | For any run of requests on the generator every value is read from the run's own cells, and below 2^128 counters these cells lie strictly one after the other |
| `Crng.RequestAdvances` | include/ref_impl/shr_rep3/aby3.hpp:737-896 | One draw takes only unused cells, and whatever is unused afterwards lies later |
| `Crng.BatchIdIs` | include/ref_impl/shr_rep3/aby3.hpp:778-795 | Incrementing the low limb with a carry into the high one is addition modulo 2^128 |
| `Crng.Generator.RefillCrngCache` | include/ref_impl/shr_rep3/aby3.hpp:883-896 | The two-limb increment is 128-bit increment, and the cache holds the combined block of the old counter |
| `Crng.Generator.CrngBit` | include/ref_impl/shr_rep3/aby3.hpp:737-751 | A scalar bit comes from the cached block at the bit pointer, after a refill when the block is used up or was combined the other way; it is the bit in the request's cell |
| `Crng.Generator.CrngByte` | include/ref_impl/shr_rep3/aby3.hpp:752-765 | The same for a byte |
| `Crng.Generator.CrngBits` | include/ref_impl/shr_rep3/aby3.hpp:767-826 | A vector over Z_2 is filled from consecutive counters, 128 elements a block, each from its cell of the request, and the counter moves on by whole batches of four |
| `Crng.Generator.CrngBytes` | include/ref_impl/shr_rep3/aby3.hpp:828-878 | A vector over a larger ring is filled from consecutive counters, 16 elements a block, masked, each from its cell of the request |
| `Crng.Generator.NextBatch` | include/ref_impl/shr_rep3/aby3.hpp:767-878 | The counter moves four blocks on with a carry |
| `CrngVectors.DrawBitTogether` | include/ref_impl/shr_rep3/aby3.hpp:737-751 | Three level generators draw bits that cancel and stay level |
| `CrngVectors.DrawByteTogether` | include/ref_impl/shr_rep3/aby3.hpp:752-765 | Three level generators draw bytes that cancel and stay level |
| `CrngVectors.DrawBitsTogether` | include/ref_impl/shr_rep3/aby3.hpp:767-826 | Three level generators fill vectors over Z_2 that cancel at every index and stay level |
| `CrngVectors.DrawBytesTogether` | include/ref_impl/shr_rep3/aby3.hpp:828-878 | Three level generators fill vectors over Z_2^ELL that cancel at every index and stay level |
| `BitVectors.BitVec.constructor` | include/rvector.hpp:591-598 | Only a partial last word is cleared; whatever else the memory held stays |
| `BitVectors.BitVec.MaskPartialLastWord` | include/rvector.hpp:518-534 | The padding bits become zero and no element changes |
| `BitVectors.BitVec.Fill` | include/rvector.hpp:601-618 | Every element gets the value and the padding stays zero |
| `BitVectors.BitVec.Add` | include/rvector.hpp:1048-1068 | Word-wise XOR is element-wise addition modulo 2 with zero padding |
| `BitVectors.BitVec.Sub` | include/rvector.hpp:1106-1112 | The same word operation is element-wise subtraction |
| `BitVectors.BitVec.Hadamard` | include/rvector.hpp:1148-1202 | Word-wise AND is the element-wise product with zero padding |
| `BitVectors.BitVec.AddScalar` | include/rvector.hpp:1205-1234 | Complementing every word and masking is adding one to every element |
| `BitVectors.BitVec.Dot` | include/rvector.hpp:1374-1404 | The parity of the population count of the ANDed words is the inner product modulo 2 |
| `BitVectors.BitVec.Reduce` | include/rvector.hpp:1001-1037 | The parity of the population count is the sum modulo 2 |
| `BitVectors.DotIsPopcount` | include/rvector.hpp:1374-1388 | Zero padding contributes nothing to the population count |
| `BitVectors.SumIsPopcount` | include/rvector.hpp:1001-1037 | The population count of all words is the number of elements that are one |
| `Packing.OrFields` | include/rvector.hpp:217-243 | Masked, shifted and ORed elements make one word whose bits are the elements' low bits in order |
| `Packing.Pack` | include/rvector.hpp:72-439 | The packed bytes are the bit string of the elements' low ELL bits, least significant first, with a zero rest; groups and tail stay inside both buffers and fill the destination |
| `Packing.WindowElement` | include/rvector.hpp:245-270 | A tail element is read through a window of one or two bytes |
| `Packing.Unpack` | include/rvector.hpp:72-439 | Every element is the ELL bits of the byte string at its position; groups and tail stay inside both buffers |
| `Packing.Canonicalize` | include/rvector.hpp:542-553 | Exactly the bits above ELL are cleared |
| `Packing.RoundTrip` | include/rvector.hpp:72-439 | For ELL 2 to 7 and every length unpacking packed bytes gives the elements back, reduced to ELL bits |
| `PackVectors.PackBuffer.constructor` | include/rvector.hpp:463-474 | The buffer has the packed size: whole 64-bit words for bits, one byte an element for ELL 8, rounded-up bytes otherwise |
| `PackVectors.PackRvec` | include/rvector.hpp:1408-1425 | For ELL 2 to 8 the buffer holds the elements' bit string; a mismatch of ELL or length is refused and changes nothing |
| `PackVectors.UnpackRvec` | include/rvector.hpp:1427-1442 | Whatever ring vector the buffer holds comes out; a mismatch is refused and changes nothing |
| `PackVectors.PackBits` | include/rvector.hpp:1408-1417 | For bits packed bit g is element g and zero beyond the last element, up to a whole word |
| `PackVectors.UnpackBits` | include/rvector.hpp:1427-1434 | The elements come back and the padding is masked |
| `PackVectors.PackThenUnpack` | include/rvector.hpp:1408-1442 | Round trip for ELL 2 to 8 at any length |
| `PackVectors.PackThenUnpackBits` | include/rvector.hpp:1408-1442 | Round trip for bits at any length |
| `CacheState.InsertKeepsShape` | src/mpmt/_tree_cache.py:452-531 | Insertion keeps the two maps mutually inverse on ids 1 to 2n - 1, dirty ids on leaves and files within the tokens |
| `CacheState.InsertBijective` | src/mpmt/_tree_cache.py:498-531 | The new token gets id 2n + 1, the leaf at n moves to 2n, every other leaf stays |
| `CacheState.UpdateKeepsShape` | src/mpmt/_tree_cache.py:533-562 | Replacing a leaf's file keeps the shape and changes only that leaf |
| `CacheState.RemoveKeepsShape` | src/mpmt/_tree_cache.py:564-657 | Removal keeps the shape, the collapsed pair and the swapped leaf included |
| `CacheState.RemoveBijective` | src/mpmt/_tree_cache.py:587-630 | After a removal every other leaf is where the collapse or the swap puts it and the removed token is gone |
| `UnionTree.InsertCoherent` | src/mpmt/_tree_cache.py:498-531 | After an insertion every inner node with no dirty leaf below it still stores the union of its children |
| `UnionTree.UpdateCoherent` | src/mpmt/_tree_cache.py:533-562 | The same after an update |
| `UnionTree.RemoveCoherent` | src/mpmt/_tree_cache.py:587-657 | The same after a removal |
| `UnionTree.ScheduleReady` | src/mpmt/_tree_cache.py:742-800 | Every dirty ancestor can be recomputed in the order of the merge: its children are stored or recomputed before it |
| `UnionTree.MergedNodes` | src/mpmt/_tree_cache.py:766-862 | Recomputing bottom-up leaves every scheduled node with the union of its children's final sets and nothing else changed |
| `UnionTree.MergeCoherent` | src/mpmt/_tree_cache.py:659-866 | After a merge nothing is dirty, every inner node stores the union of its children and no leaf has changed |
| `UnionTree.RootStoresUnion` | src/mpmt/_tree_cache.py:659-866 | With nothing dirty node 1 stores exactly the union of all leaves |
| `MergeOrdering.Climb` | src/mpmt/_tree_cache.py:742-747 | Following parents from a dirty leaf adds exactly its proper ancestors |
| `MergeOrdering.DirtyNodes` | src/mpmt/_tree_cache.py:742-750 | The set loop collects exactly the proper ancestors of all dirty leaves |
| `MergeOrdering.SortedDescending` | src/mpmt/_tree_cache.py:766 | The sorted list is strictly descending with the same elements |
| `MergeOrdering.DescendingUnique` | src/mpmt/_tree_cache.py:766 | A strictly descending list is determined by its elements |
| `MergeOrdering.MergeSequence` | src/mpmt/_tree_cache.py:742-766 | The two loops compute the schedule on which the merge theorem rests |
| `TreeMerge.MergedNode` | src/mpmt/_tree_cache.py:766-862 | Merging one node stores the shared union under that node's token and touches no other file |
| `TreeMerge.MergeKeepsShape` | src/mpmt/_tree_cache.py:659-866 | A merge keeps the shape, moves no token and clears the dirty set |
| `TreeCache.Store.constructor` | src/mpmt/_tree_cache.py:28-58 | A cache in an empty directory is valid and empty; its root buffer is arbitrary memory |
| `TreeCache.Store.MarkCorrupted` | src/mpmt/_tree_cache.py:382-406 | The stored record says not valid; the tree itself is untouched |
| `TreeCache.Store.MarkValid` | src/mpmt/_tree_cache.py:408-433 | The stored record is the valid current tree |
| `TreeCache.Store.StopPartWay` | src/mpmt/_tree_cache.py:382-406 | A step that stops part-way leaves the cache marked corrupted and the stored record as not valid, whatever it had changed by then |
| `TreeCache.Store.HasInserted` | src/mpmt/_tree_cache.py:442-450 | A usable cache says yes exactly when the token numbers one of the nodes n to 2n - 1 |
| `CacheState.InsertLeafTokens` | src/mpmt/_tree_cache.py:442-531 | An insertion adds its own token to those has_inserted answers yes for, and keeps the others |
| `CacheState.RemoveLeafTokens` | src/mpmt/_tree_cache.py:442-657 | A removal takes its own token from them and keeps the others |
| `TreeCache.Store.Insert` | src/mpmt/_tree_cache.py:452-531 | The updates in place amount to the insertion on the whole state, marked valid at the end; a corrupted cache is refused unchanged |
| `TreeCache.Store.Update` | src/mpmt/_tree_cache.py:533-562 | The same for an update; unknown tokens and inner nodes are refused unchanged |
| `TreeCache.Store.Remove` | src/mpmt/_tree_cache.py:564-657 | The same for a removal; an unknown token is ignored and an inner node refused |
| `TreeCache.Store.MergeOne` | src/mpmt/_tree_cache.py:766-835 | Load, merge and save of one node is the merge of that node on the whole state |
| `TreeCache.Store.ClearRoot` | src/mpmt/_tree_cache.py:667-678 | With no leaf left the root in memory is all zero and there is no root file |
| `TreeCache.Store.MergeOnlyLeaf` | src/mpmt/_tree_cache.py:680-740 | A single leaf is converted and published when it is dirty or no root is stored |
| `TreeCache.Store.MergeTree` | src/mpmt/_tree_cache.py:742-862 | The merge loop merges the whole schedule and publishes after node 1 |
| `TreeCache.Store.ExecuteMerge` | src/mpmt/_tree_cache.py:659-866 | The whole method is the merge on the whole state, or leaves a corrupted cache unchanged |
| `CacheReload.ReadF` | src/mpmt/_tree_cache.py:210-238 | The token map is read as listed, unless an id is negative or repeated |
| `CacheReload.ReadR` | src/mpmt/_tree_cache.py:240-267 | The id map is read as listed, unless a key does not parse, is negative or repeats |
| `CacheReload.Pigeonhole` | src/mpmt/_tree_cache.py:269-280 | Equal sizes and one inverse direction give the other |
| `CacheReload.InverseIff` | src/mpmt/_tree_cache.py:269-298 | The checks on inverses, sizes and ids hold exactly when the maps are inverse on 1 to 2n - 1 |
| `CacheReload.Open` | src/mpmt/_tree_cache.py:82-304 | The constructor opens a record exactly when a well-formed tree is described by it, and then with that tree |
| `CacheReload.SavedMetaIsGood` | src/mpmt/_tree_cache.py:408-433 | What a completed step saved describes exactly one valid tree, the saved one |
| `CacheReload.WriteMeta` | src/mpmt/_tree_cache.py:382-433 | The record written lists exactly the entries of the two maps and of the dirty set, for any way of printing ids that reads back |
| `CacheReload.WriteThenOpen` | src/mpmt/_tree_cache.py:82-433 | A record that is written and read back opens exactly when it is that of a well-formed tree, and then unchanged |
| `CacheReload.SaveThenOpen` | src/mpmt/_tree_cache.py:82-433 | Opening what a completed step saved restores the same maps and the same dirty set, and opening what a step that stopped part-way left is refused |
| `CacheReload.ReopenIsIdentity` | src/mpmt/_tree_cache.py:306-379 | Reopening gives back the very same cache if and only if there are leaves and root files, or no root is rebuilt, every leaf was dirty anyway and the fresh buffer happens to equal the old root |
| `CacheReload.ReopenKeepsShape` | src/mpmt/_tree_cache.py:324-379 | Losing root files never loses the tree: the reopened cache has the shape, the same files and at least the old dirt |
| `CacheReload.ReopenIs` | src/mpmt/_tree_cache.py:306-379 | Reopening never changes the tree or its files: the root is loaded, or converted from node 1, or, when neither exists, every leaf becomes dirty |
| `TrioMerge.MergedOnes` | src/mpmt/agent_server.py:183-194 | Three local merges whose messages arrive open to the union of the two vectors |
| `TrioMerge.MergeTrio` | src/mpmt/_tree_cache.py:766-862 | Merging the three replicas along one schedule is merging the plaintext tree by unions |
| `TrioTree.JointInsert` | src/mpmt/_tree_cache.py:452-531 | Insertion on all three caches keeps the joint invariant and is insertion into the plaintext tree |
| `TrioTree.JointUpdate` | src/mpmt/_tree_cache.py:533-562 | The same for an update |
| `TrioTree.JointRemove` | src/mpmt/_tree_cache.py:564-657 | The same for a removal |
| `TrioTree.SameOrder` | src/mpmt/_tree_cache.py:742-800 | The three replicas recompute the same nodes in the same order |
| `TrioTree.JointSync` | src/mpmt/_tree_cache.py:659-866 | The three merges keep the joint invariant, clean the tree and open the published root to node 1's set |
| `TrioReopen.JointReopen` | src/mpmt/_tree_cache.py:306-379 | Reopening all three caches, with their root files or without, keeps the joint invariant and every node of the plaintext tree; only leaves get dirty |
| `TrioReopen.RebuiltRoot` | src/mpmt/_tree_cache.py:324-369 | A root converted while reopening opens to what node 1 of the plaintext tree stores |
| `Federation.JoinPlaces` | src/mpmt/_tree_cache.py:498-531 | Where a join places holders depends only on where they were, not on tokens |
| `Federation.QuitPlaces` | src/mpmt/_tree_cache.py:587-630 | The same for a quit |
| `Federation.RootIsLiveUnion` | src/mpmt/_tree_cache.py:659-866 | The clean root is the union of the live holders' filters |
| `Runs.StepKeepsInv` | src/mpmt/agent_server.py:226-319 | Every join, update, quit, SYNC and restart of the agents keeps the invariant of the three agents, and a SYNC publishes the union of the live filters |
| `Runs.RestartInv` | src/mpmt/_tree_cache.py:306-379 | After a restart, with the root files or without them, the invariant holds again, so the next SYNC publishes the union |
| `Runs.RunPublishesUnion` | src/mpmt/agent_server.py:226-319 | After every run, restarts included, that ends in a SYNC the three published roots are a consistent sharing over Z_2^ELL of the union of the live holders' filters |
| `Runs.FromEmpty` | src/mpmt/agent_server.py:226-319 | The same from three empty caches with arbitrary root buffers; with no live holder the root is zero |
| `Runs.Lockstep` | src/mpmt/_tree_cache.py:498-774 | Over every run, whatever tokens the replicas draw, they place each holder at the same node, have the same dirty leaves and would merge in the same order |
| `Runs.DealtOnes` | src/mpmt/set_holder.py:24-69 | The shares a holder deals are a consistent sharing whose ones are the holder's filter |
| `Hash.HashAesDm` | include/common.hpp:110-169 | The local chain over full and padded blocks, with out-of-range widths and long keys refused |
| `Hash.DigestsAgree` | include/ref_impl/shr_add2/emp2.hpp:165-244 | Circuit and local digest agree if and only if the message is not empty or AES happens to map the zero block to low bits that are zero |
| `Hash.ShareBytes` | include/ref_impl/shr_add2/emp2.hpp:110-121 | The two byte strings XOR to the plaintext |
| `Hash.CircuitHash` | include/ref_impl/shr_add2/emp2.hpp:165-244 | Over XOR shares of element and seed the ring shares add up to the circuit digest of the XORed strings |
| `Hash.ModShares` | include/ref_impl/shr_add2/emp2.hpp:246-261 | The shares open to the value modulo the public modulus; 0 and anything from 2^ell up are refused |
| `Hash.EqualityShares` | include/ref_impl/shr_add2/emp2.hpp:263-278 | The shares open to 1 exactly when the two shared values are equal |
| `Bloom.BatchSet` | src/mpmt/util.py:96-100 | Exactly the listed positions become one |
| `Bloom.Collect` | src/mpmt/util.py:89-95 | One element adds exactly its positions to the buffer, or fails when the buffer is too short |
| `Bloom.GenBf` | src/mpmt/util.py:68-101 | A filter comes out exactly when the buffer fits, and then bit i is one exactly when some element and seed hash to i: no stale entry is replayed and no pair lost |
| `Bloom.MatchingSeedsFit` | src/mpmt/util.py:78-100 | With as many seeds as hash functions no write ever falls outside the buffer |
| `QueryMath.Rotation` | src/mpmt/agent_server.py:355-363 | Shifting positions by the bias puts the point at the index and nowhere else |
| `QueryMath.Window` | src/mpmt/agent_server.py:428-430 | From -bias to -bias + bf_size - 1 there are exactly bf_size positions, wrapped or not |
| `QueryMath.WindowAt` | src/mpmt/agent_server.py:427-438 | Slot s of that window is position s - bias |
| `QueryMath.CountsPick` | src/mpmt/agent_server.py:376-390 | The inner product of the index counts with the root is the sum of the root at the indices |
| `QueryMath.AllPicked` | src/mpmt/agent_server.py:396-398 | That sum equals the number of hash functions exactly when the root is one at every index |
| `QueryPeers.StewardKeys` | src/mpmt/agent_server.py:365-374 | Every point gets a key pair that shares it |
| `QueryPeers.EvaluateKey` | src/mpmt/agent_server.py:427-445 | One key at its bias adds the evaluated window to the buffer |
| `QueryPeers.PeerQuery` | src/mpmt/agent_server.py:400-451 | A peer's buffer ends as its draw plus the sum over all keys of the shifted evaluations |
| `QueryPeers.PeersShareCounts` | src/mpmt/agent_server.py:415-451 | At every position the two peers' sums share how often the position is an index |
| `Query.ShareIndex` | src/mpmt/querier.py:36-42 | Hash, reduction and the three-way split give the steward a point and both peers a bias that add up to the index, exactly when bf_size is below 2^ell_add2 |
| `Query.ShareIndices` | src/mpmt/agent_server.py:344-363 | The same for all seeds in order |
| `Query.CountVector` | src/mpmt/agent_server.py:376-450 | The three query buffers become a replicated sharing of the index counts |
| `Query.DotOpens` | src/mpmt/agent_server.py:384-398 | The reshared inner product equals the number of hash functions if and only if every index is set in the root; it cannot wrap |
| `Query.Compare` | src/mpmt/agent_server.py:396-458 | The opened equality test is 1 exactly when every index is set in the root |
| `Query.RunQuery` | src/mpmt/agent_server.py:321-458 | For every element, split and draw the answer is 1 exactly when the published root is one at each of the element's positions; a filter as large as the index ring is refused |
| `Ledger.ReserveKeeps` | application/manage_server/db.py:176-188 | A new reservation without a live rival keeps the queue and one live operation per user and service |
| `Ledger.EnqueueKeeps` | application/manage_server/db.py:221-239 | Queueing keeps both |
| `Ledger.PromoteKeeps` | application/manage_server/db.py:474-500 | Promotion takes a queued operation and keeps both |
| `Ledger.FinishKeeps` | application/manage_server/db.py:468-472 | Ending an operation keeps both |
| `Ledger.FailAllKeeps` | application/manage_server/db.py:339-348 | Failing everything leaves no live operation |
| `ManagerDb.SortedByPosition` | application/manage_server/db.py:424-435 | Selecting by increasing position yields the queue |
| `ManagerDb.Db.CreateReserved` | application/manage_server/db.py:176-188 | A row is inserted exactly when no live operation of that user and service exists |
| `ManagerDb.Db.NextQueuePos` | application/manage_server/db.py:369-375 | The next position lies behind every queued or active one |
| `ManagerDb.Db.EnqueueReserved` | application/manage_server/db.py:221-239 | Only a reserved operation is queued, at the end of the FIFO queue |
| `ManagerDb.Db.GetActive` | application/manage_server/db.py:385-391 | An ACTIVE or BUSY operation is found if there is one |
| `ManagerDb.Db.SelectQueued` | application/manage_server/db.py:377-383 | Ordering by position yields the FIFO queue |
| `ManagerDb.Db.ReorderQueue` | application/manage_server/db.py:424-435 | Positions become 1 to N in queue order and nothing else changes |
| `ManagerDb.Db.PromoteFirstQueued` | application/manage_server/db.py:474-500 | The head of the FIFO queue becomes ACTIVE and the rest stays in order |
| `ManagerDb.Db.SetStatus` | application/manage_server/db.py:241-260 | Ending or advancing an operation outside the queue |
| `ManagerDb.Db.RemoveFromQueue` | application/manage_server/db.py:468-472 | The operation leaves the queue, the others keep their order |
| `ManagerDb.Db.CompleteJoin` | application/manage_server/db.py:289-313 | In one transaction the operation is DONE, the tokens stored and the user JOINED |
| `ManagerDb.Db.CompleteQuit` | application/manage_server/db.py:315-332 | In one transaction the operation is DONE, the tokens deleted and the user QUITTED |
| `ManagerDb.Db.FailAllLive` | application/manage_server/db.py:339-348 | Every live operation fails and the queue is empty |
| `ManagerDb.Db.ReconcileOnStartup` | application/manage_server/db.py:350-365 | ACTIVE and BUSY operations fail; the outcome is uncertain exactly when one was BUSY |
| `Scheduler.ControlStep` | application/manage_server/app.py:274-924 | Every step of every thread, a start that fails between activation and hand-over included, keeps lock ownership, the single service thread, the single ACTIVE or BUSY operation and the consistency of the tables |
| `SchedulerSafety.StepForward` | application/manage_server/app.py:274-924 | No step moves an operation backwards, changes its user or kind or deletes it |
| `SchedulerSafety.Exclusive` | application/manage_server/app.py:670-695 | At most one operation is ACTIVE or BUSY, and none while a SYNC runs |
| `SchedulerSafety.SyncStep` | application/manage_server/app.py:774-837 | While a SYNC waits at most one promotion happens, by the activation that had passed its SYNC check before |
| `SchedulerSafety.PortsStep` | application/manage_server/app.py:373-408 | Ports of an operation are handed out at most once |
| `SchedulerSafety.FifoStep` | application/manage_server/app.py:653-695 | The queue and the promotions stay in the order of queueing through evictions and cracks |
| `Membership.TokensStep` | application/manage_server/app.py:487-649 | A user is JOINED exactly when all three tokens are stored, and otherwise none is |
| `Membership.JoinsStep` | application/manage_server/app.py:260-327 | The user of a queued, active or busy JOIN is not JOINED |
| `Membership.QueuedBefore` | application/manage_server/app.py:329-366 | Only queueing brings an operation into the queue |
| `ManagerRuns.WorkStep` | application/manage_server/app.py:487-649 | UPDATE and QUIT reach the agents only for JOINED users |
| `ManagerRuns.LeavesStep` | application/manage_server/app.py:487-649 | Unless an outcome is uncertain the agents' leaves are those of the JOINED users, up to the one operation being recorded |
| `ManagerRuns.SentStep` | application/manage_server/app.py:487-649 | An UPDATE or QUIT sends the agents the tokens stored for its user |
| `ManagerRuns.NamesStep` | application/manage_server/app.py:487-649 | Unless an outcome is uncertain the tokens stored for a user are those the agents gave out for its leaf |
| `ManagerRuns.CrackStep` | application/manage_server/app.py:172-191 | Once a crack has been cleaned up nothing is or becomes queued, active or busy |
| `ManagerRuns.StepInv` | application/manage_server/app.py:274-924 | Every step keeps all of the above together |
| `ManagerRuns.RunInv` | application/manage_server/app.py:274-924 | So every state of every interleaving satisfies it |
| `ManagerRuns.SafeScheduling` | application/manage_server/app.py:670-837 | In every run: mutual exclusion, SYNC priority, one hand-out of ports and promotion in the order of queueing |
| `ManagerRuns.MembersHaveLeaves` | application/manage_server/app.py:487-649 | In every uncracked state with no operation in progress the JOINED users are exactly those with three tokens and exactly those with a leaf on the agents, and the stored tokens are those of that leaf |
| `ManagerRuns.AgentsActOnTheRightLeaf` | application/manage_server/app.py:487-649 | Whenever the agents run a JOIN its user has no leaf, and whenever they run an UPDATE or QUIT it has one and the tokens sent are those of that leaf |
| `ManagerRuns.CrackedStaysQuiet` | application/manage_server/app.py:172-191 | In every run, after the cleanup of a crack no operation is queued, active or busy |
| `ManagerRuns.RestartInv` | application/manage_server/db.py:350-365 | Wherever an uncracked manager stops without a BUSY operation, restarting on its tables re-establishes the invariant |
| `Deployment.Induced` | application/manage_server/app.py:487-649 | Whenever the manager has the agents finish an operation the federation allows that operation, and an UPDATE or QUIT was sent with the agents' own tokens for the user's leaf |
| `Deployment.InitialGood` | application/manage_server/app.py:487-649 | A fresh database and three empty caches satisfy the joint invariant |
| `Deployment.TakeGood` | application/manage_server/app.py:487-649 | Every joint step keeps the invariants of both sides and the link between the manager's tables and the agents' trees |
| `Deployment.RunInduces` | application/manage_server/app.py:487-837 | Every joint run is a run of the manager and, on the agents, a run of the federation |
| `Deployment.JoinedUsersAreServed` | application/manage_server/app.py:487-837 | With no operation in progress the JOINED users are exactly the holders with leaves, under the stored tokens, and after a SYNC the published roots share the union of their filters |

## Left out

- Secrecy and the quality of the randomness: only functional correctness is stated.
- Sockets, framing, JSON transport of keys, Flask routes, the command line, logging, timeouts and byte counters; a
  channel error is not modelled, so neither is the error that a resharing call reports after one.
- AES, CCRH and garbled circuits: arbitrary functions and ideal ring functionalities on shares.
- SIMD kernels: the per-lane arithmetic they compute. The 32- and 256-element rounds of packing with ELL 4 and 2 are
  modelled as the groups they consist of; group and tail loops are kept.
- `bf_param`: its floating-point formulas; the parameters are integers with the ranges the query needs.
- Partial writes of single files: files are a map from tokens to share vectors, and a step that stops part-way leaves
  whatever it likes under a record that says so. The drawing of an unused token is an argument.
- The characters of meta.json and the type checks on it (booleans, non-integers, missing fields): the record is given
  with its types, and a printed id is assumed to read back.
- When agents are restarted, either all three still have their root files or none; a restart takes place between
  operations.
- Wall-clock leases and timeouts of the manager: any number of expired queue heads may be evicted, any request may be
  abandoned and any operation on the agents may end in a crack. Database failures are not modelled.
- The agents' availability flag and the port reservation handshake: the outcome of a reservation is arbitrary.
- Bgi16Eval.Evaluate: the workers run one after the other in an arbitrary order, each output element being a cell of
  its own; the interleavings that matter, those of one-bit outputs, are modelled in `OneBitStores`, where loads and
  stores of single words are atomic.
- Deployment.RunInduces: stated for runs in which no crack begins; after one the agents' trees are uncertain and the
  manager serves nobody. The agents carry out an operation when its last answer arrives.
- Crng.PadNeverReused: stated below 2^128 counters, where the counter itself would wrap.
- ManagerDb.Db.SetStatus: covers the status changes the manager makes, none of which revives an ended operation.
- Rvector.VecDot: scalar addition, subtraction and reduction for ELL 2 to 8 are left out beside it; they are easy.
- Packing.Pack: the size limits of the source's length computation are not modelled; lengths are unbounded.
- Bloom.GenBf: seeds of more than 16 bytes are refused by the hash; the filter generator is stated for seeds that are
  accepted.
- ReshareRing.RunsComplete: the shutdown of the workers is not modelled, and a wait on a condition variable is a step
  that can be taken whenever its condition holds.
- Scheduler.ControlStep: the manager's handlers and threads are steps of a machine over values rather than methods of an
  object, because their interleavings are the point; the database methods they call are modelled in place in `ManagerDb`.
- ManagerRuns.SafeScheduling: moving an operation to another queue position (application/manage_server/db.py:437-466)
  is not part of the machine; nothing in the repository calls it.
- The secure-channel set-up, the exchange of pad keys, set splitting, agent-side reservation sockets and the bindings:
  no hard property.
