# A verified model of the Onyx UDP library

Onyx is a small C++ library for games and services that talk over UDP. This project models its logic in
Dafny and proves what the library is relied on for. It covers, from the bottom up:

- the two table-driven checksums (`lib/onyxutil/crc.cpp`), shown equal to bit-serial shift registers and to
  long division of polynomials over two elements, with the error patterns each of them sees and misses;
- the hash of byte strings, `hash_pod`, with the strings it keeps apart and exactly which collide;
- the chained hash table (`lib/onyxutil/hashtable.cpp`) as nodes and pointers in memory, agreeing with a
  finite map, and its iterator, which survives the removal of what it has handed out;
- the growable vector (`lib/onyxutil/vector.cpp`) as a block of memory edited in place or moved, agreeing
  with a sequence, with the cost of growing;
- payloads and their reference counts (`lib/onyxudp/payload.cpp`), with a ledger of owners;
- groups and peers (`lib/onyxudp/udpbase.cpp`), two lists of each other that must stay converse;
- client connections (`lib/onyxudp/udpclient.cpp`): the timers, the poll that destroys connections while it
  iterates over the table that holds them, and who owns which payload at every moment.

## How it is built

Where the source changes things step by step, the model has classes with the same fields and methods with
the same loops and branches (`HashTables`, `Vectors`, `Groups`, `Clients`, `Payloads`, `Crc.UpdateCrc32`,
`HashPod.Compute`). Each such class carries a ghost image of its memory; the method contracts say which
function of the old image the new one is, and lemmas about those functions, free of the heap, carry the
guarantees over single steps and whole runs.

| file | contents |
|---|---|
| `ShiftRegister.dfy` | shift registers over bits: linearity, kernel, long division, parity |
| `CrcTables.dfy`, `Words.dfy`, `Crc.dfy` | the two tables, words as bits, the two update loops |
| `CrcLaws.dfy` | what the checksums guarantee |
| `HashPod.dfy` | the string hash and its collisions |
| `Chains.dfy` | rows of chains read in order; walking the order while removing from it |
| `HashTable.dfy` | the table and its iterator in memory |
| `HashTableLaws.dfy`, `HashTableWalks.dfy` | what callbacks owe the table, and runs of calls on it; iterations that remove as they go |
| `Vector.dfy` | the vector in memory, its edits as sequences, the cost of growing |
| `Payloads.dfy` | reference counts and the ledger of owners |
| `Membership.dfy`, `Groups.dfy` | groups and peers as relations and runs; the same in memory |
| `Timers.dfy` | the retransmit and idle timers, poll by poll |
| `Connections.dfy`, `Polls.dfy` | connections and what they own; a poll turn by turn, and many polls |
| `Clients.dfy` | the client in memory |

## Where the code is not what its documentation says

The model follows the code and proves what it does.

- `udp_group_create` prepares the link to the list of groups and never stores the new group as its head
  (lib/onyxudp/udpbase.cpp:133). So the list stays empty, and destroying any group reports an error:
  `Membership.NeverListed`. The list itself is modelled for any contents; the missing store is the run step
  `Publish`.
- `udp_group_peer_add` answers success when the first of its two appends fails (udpbase.cpp:224-232), where
  the header promises an error. `Membership.AddedAnswer` says exactly when: the answer is success without
  membership if and only if the peer is no member and the first append finds no room.
  `Membership.OkWithoutMembership` is such a call.
- `udp_client_payload_send` is a stub that fails (udpclient.cpp:184-186) and keeps the reference taken for
  it. Sending is modelled as an operation that may succeed, and then takes a reference with it, or fail, and
  then does not. Each failed send leaves one reference that nobody will give back, and nothing else does:
  `Connections.TurnLoses` for one turn, `Clients.Client.Poll` over a poll. `Connections.LostByFailedSend` says
  of any payload when it outlives the connection: if it is pinned, if somebody else owns it, or if the send of
  it failed.
- The header of `udp_client_connect` promises either a payload back or a disconnect message
  (udpclient.h:108-118). A connection that is given up while it is still connecting ends with neither
  (udpclient.cpp:279). `Polls.EndsTold`: a poll that destroys a connection tells the application exactly if the
  connection had got past connecting. `Polls.EndsInSilence` is one that had not.
- Three handlers run off their end without a `return` (udpclient.cpp:232, 261, 264). What they leave behind
  is a parameter, `stray`; the timing theorems take it as zero, the theorem about polling allows any value.
- The subtraction of timestamps is unsigned, so a timestamp ahead of the clock counts as very old:
  `Timers.AheadOfTheClock`.
- The 16-bit table belongs to a register of 13 bits in effect. Its guarantees are stated for that register.
- The header of the hash asks that AB and BA, and one zero byte and two, hash apart. That holds
  (`HashPod.AdjacentSwap`, `HashPod.ShortStrings`), and more: any difference within seven bytes is seen
  (`HashPod.SevenByteWindow`), while eight bytes can collide (`HashPod.EightBytesCollide`).
- Inserting into a vector from a source that lies inside the same vector goes wrong when the insertion is in
  place and the source is not clear of the items that move up; `Vectors.ClearSource` and
  `Vectors.MovedSource` give the exact condition.
- Several callers cast the result of `vector_item_get` to the element itself (udpbase.cpp:141, 154, 158, 207,
  218; udpclient.cpp:37, 287). The model takes the element the slot holds.
- The poll uses names that are not declared (`now`, `this`; udpclient.cpp:282, 301). They are read as the
  time of the poll and the connection.

## Model

| member | source | states |
|---|---|---|
| CrcTables.Table32IsSteps | lib/onyxutil/crc.cpp:4-37 | each of the 256 entries of the 32-bit table is its index clocked eight times through the register with constant 0xEDB88320 |
| CrcTables.Table16IsSteps | lib/onyxutil/crc.cpp:50-67 | the same for the 16-bit table and the constant 0x1021 |
| Crc.UpdateCrc32 | lib/onyxutil/crc.cpp:39-48 | for every message and start, the table loop computes the bit-serial checksum: complement, clock every bit of the message through the register low bit first, complement |
| Crc.UpdateCrc16 | lib/onyxutil/crc.cpp:69-78 | the same for the 16-bit loop, with no carry-over from the widening of the register |
| CrcLaws.ChecksumIsRemainder | lib/onyxutil/crc.cpp:39-48 | the register form is long division: the complement of the checksum is the remainder of the shifted message, start folded in, by the generator |
| ShiftRegister.SerialIsDivision | lib/onyxutil/crc.cpp:39-48 | clocking a message through the register leaves the remainder of the division, for every register, start and message |
| CrcLaws.UpdatesCompose | lib/onyxutil/crc.cpp:39-48 | updating with one message and then another equals updating once with their concatenation |
| CrcLaws.UndetectedIffDivisible | lib/onyxutil/crc.cpp:39-48 | two messages of equal length share a checksum if and only if the generator divides their difference |
| CrcLaws.Burst32 | lib/onyxutil/crc.cpp:39-48 | messages that differ only within some 32 consecutive bits, at any bit position and of any length, have equal CRC-32 only if they are equal |
| CrcLaws.BlindSpot32 | lib/onyxutil/crc.cpp:39-48 | of the differences within 33 consecutive bits exactly one non-empty pattern goes unseen, the generator itself, so 32 is the limit |
| CrcLaws.Residue32 | lib/onyxutil/crc.cpp:39-48 | extending any message by the little-endian bytes of its own CRC-32 always yields 0x2144df1c |
| CrcLaws.LittleEndianBits | lib/onyxudp/protocol.h:5-8 | the bytes of a word, low byte first, carry its bits in register order |
| CrcLaws.Burst16 | lib/onyxutil/crc.cpp:69-78 | messages that differ only within 13 consecutive bits have equal CRC-16 only if they are equal |
| CrcLaws.BlindSpot16 | lib/onyxutil/crc.cpp:50-78 | of the differences within 14 consecutive bits exactly one non-empty pattern goes unseen, so 13 is the limit |
| CrcLaws.BlindBytes16 | lib/onyxutil/crc.cpp:50-78 | flipping the bits 0x43 and 0x20 of two consecutive bytes, anywhere in any message, never changes the CRC-16 |
| CrcLaws.ParityLaw16 | lib/onyxutil/crc.cpp:69-78 | the parity of the CRC-16 is that of the start and of all bits of the message together |
| CrcLaws.OddErrorsSeen16 | lib/onyxutil/crc.cpp:69-78 | any change of an odd number of bits changes the CRC-16 |
| CrcLaws.TopBits16 | lib/onyxutil/crc.cpp:69-78 | the CRC-16 of every non-empty message has its top three bits set |
| HashPod.Compute | lib/onyxutil/hashtable.cpp:7-17 | the loop computes the multiply-and-add hash modulo 2^64: 1 for no bytes, and for one more byte 22511 times the hash before it, plus 33469 and the byte |
| HashPod.AbsorbInjective | lib/onyxutil/hashtable.cpp:13 | one step never merges two states, since 22511 is odd |
| HashPod.SevenByteWindow | lib/onyxutil/hashtable.cpp:7-17 | strings of equal length that differ only within some seven consecutive bytes hash apart |
| HashPod.AdjacentSwap | lib/onyxutil/hashtable.h:25-28 | swapping two adjacent bytes that differ changes the hash |
| HashPod.ShortStrings | lib/onyxutil/hashtable.h:25-28 | strings of at most four bytes, of whatever lengths, never share a hash |
| HashPod.CollideIff | lib/onyxutil/hashtable.cpp:7-17 | strings of equal length collide if and only if their difference, read in base 22511, is a multiple of 2^64 |
| HashPod.EightBytesCollide | lib/onyxutil/hashtable.cpp:7-17 | two strings of eight bytes with one hash: seven is the limit |
| HashTableLaws.Representatives | lib/onyxutil/hashtable.h:87-95 | what the header asks of the callbacks, an equivalence that implies equal hashes, is enough for the table: equal keys have a common representative |
| HashTableLaws.Demanded | lib/onyxutil/hashtable.h:87-95 | and nothing less is enough |
| HashTableLaws.MaskIsRemainder | lib/onyxutil/hashtable.cpp:53 | masking a code with one less than the 32 slots is taking its remainder |
| HashTables.HashTable.constructor | lib/onyxutil/hashtable.cpp:19-31 | a new table is sound and stands for the empty map |
| HashTables.HashTable.Find | lib/onyxutil/hashtable.cpp:48-68 | the item on record under an equal key, or nothing exactly if there is none |
| HashTables.HashTable.Assign | lib/onyxutil/hashtable.cpp:70-117 | the map afterwards; the replaced pointer, or the new item itself, or nothing exactly if memory ran out; the order of the nodes is as before, or one new node has entered it, at the beginning of its slot; there are 32 slots once there are any |
| HashTables.HashTable.Remove | lib/onyxutil/hashtable.cpp:119-142 | the map loses the key's class, the answer says whether it was there, exactly its node leaves the order, and the items of the others stand |
| HashTables.HashTable.LinkingIsSound | lib/onyxutil/hashtable.cpp:111-114 | linking at the head of a chain keeps chains acyclic, nodes in the slots of their codes, and one node for each class |
| HashTables.HashTable.UnlinkingIsSound | lib/onyxutil/hashtable.cpp:125-133 | and so does unlinking any node of any chain |
| HashTables.HashTable.OrderIsContents | lib/onyxutil/hashtable.cpp:144-189 | the order of iteration meets the node of each class on record once, and no other |
| HashTables.HashTable.OrderCounts | lib/onyxutil/hashtable.cpp:114-135 | as many nodes are met as there are classes on record |
| HashTables.HashTable.OrderBySlot | lib/onyxutil/hashtable.cpp:79-162 | the order goes slot by slot: first the nodes whose codes leave less than `s` over when divided by 32, then the others |
| HashTables.HashTable.MoveNext | lib/onyxutil/hashtable.cpp:144-156 | down the chain or on to the next slot in use: the node that follows in the order, or none at its end |
| HashTables.HashTable.Begin | lib/onyxutil/hashtable.cpp:158-176 | the first item of the order, with the iterator already one ahead |
| HashTables.HashIterator.Next | lib/onyxutil/hashtable.cpp:178-189 | the item at the head of what is ahead, which shrinks by it; nothing exactly at the end |
| HashTables.HashTable.Deinit | lib/onyxutil/hashtable.cpp:33-41 | every node is freed, once, and the callbacks are gone with the rest: the table is of no use until it is initialised again |
| HashTableLaws.PlayAndFind | lib/onyxutil/hashtable.cpp:48-142 | any run of assignments and removals on an empty table in memory, whichever allocations fail, leaves the map that its changes come to, and a key looked up after it finds the item last assigned under an equal key and not removed since, or nothing exactly if there is none |
| HashTableLaws.MadeIs | lib/onyxutil/hashtable.cpp:70-142 | which changes those are: one for each request, a removal always, an assignment unless there were no slots and none could be allocated, or the class held nothing and no node could be |
| HashTableLaws.FindsLastAssigned | lib/onyxutil/hashtable.cpp:48-142 | the law behind it, of the map a run of changes comes to: a class is in it exactly if an assignment had the last word on it, and then with that item |
| HashTableWalks.Iterate | lib/onyxutil/hashtable.cpp:119-189 | on any table in memory, whatever calls a caller makes after beginning an iteration, each asking for the next item or removing one already handed out: the nodes handed out are those of the order at the start, from the first on, as many as were asked for or all of them; the iterator still stands at the rest of that order and is at its end exactly when all were asked for; and the table is sound and holds what it held without what was removed |
| HashTableWalks.TalliedIs | lib/onyxutil/hashtable.h:141-153 | what such calls come to: exactly the classes named by a removal whose item had been handed out by then are gone, and an item has been asked for once more than there were such calls |
| HashTableWalks.Follow | lib/onyxutil/hashtable.cpp:119-189 | each of those calls is a move of the walk that the next two rows speak of |
| Chains.WalkCovers | lib/onyxutil/hashtable.h:141-144 | however items already handed out are removed along the way, a walk hands out what was there at the start, in order, each once, and what is ahead is still in the table |
| Chains.WalkEnds | lib/onyxutil/hashtable.h:141-144 | it reaches the end exactly when as many items have been taken as there were at the start |
| Chains.RemovalRule | lib/onyxutil/hashtable.h:141-153 | removing a node leaves what is ahead in place if and only if the node is not ahead |
| Vectors.MemMove | lib/onyxutil/vector.cpp:47 | a block move, as section 7.24.2.2 of C11 has it: the two places may overlap |
| Vectors.Vector.constructor | lib/onyxutil/vector.cpp:5-12 | a new vector is empty and has no block |
| Vectors.Vector.Insert | lib/onyxutil/vector.cpp:53-91 | on both paths the items stand before the index, then the source as it was, then the rest (`SplicedIs`); refused, with nothing changed, exactly on a bad index, nothing to insert, more than 0x100000 items or no memory, and the block grows by a quarter and sixteen (`InsertedIs`); and what is read when the source lies inside the vector |
| Vectors.Vector.Regrow | lib/onyxutil/vector.cpp:64-81 | the path that moves to a larger block |
| Vectors.Vector.Shuffle | lib/onyxutil/vector.cpp:82-88 | the path that makes room in place, with overlapping moves |
| Vectors.Vector.Remove | lib/onyxutil/vector.cpp:37-51 | exactly the range, clamped to the end, is taken out (`CutIs`), and its length is the answer |
| Vectors.Vector.Append | lib/onyxutil/vector.cpp:22-28 | the item stands behind the others and the answer is the new length; or nothing changes and the answer is zero, exactly if there are 0x100000 items, or the block is full and memory runs out |
| Vectors.Vector.Get | lib/onyxutil/vector.cpp:30-35 | the place of an item; the place behind the last one is valid, any further one is not |
| Vectors.Vector.Deinit | lib/onyxutil/vector.cpp:14-20 | the recorded size of the block stays, so a vector that had a block is of no use afterwards |
| Vectors.CutUndoesSplice | lib/onyxutil/vector.cpp:37-91 | removing what was inserted gives the sequence back |
| Vectors.SpliceUndoesCut | lib/onyxutil/vector.cpp:37-91 | inserting what was removed gives the sequence back |
| Vectors.AmortisedGrowth | lib/onyxutil/vector.cpp:63-81 | in every run of edits of a new vector, growing copies at most five items for each of the most items held at once; at most 0x100000 items; a block of at most 1310736. `Vector.Valid` ties the items copied to those that the block moves of `Vector.CopyOver` read out of old blocks |
| Vectors.ClearSource | lib/onyxutil/vector.cpp:82-88 | a source inside the vector is read as it was if it is clear of the items that move up |
| Vectors.MovedSource | lib/onyxutil/vector.cpp:82-88 | and otherwise, wherever it lies, it is not |
| Payloads.Payload.Hold | lib/onyxudp/payload.cpp:53-72 | one more, unless dead or pinned at 0xffff, which is an error |
| Payloads.Payload.Release | lib/onyxudp/payload.cpp:33-51 | one less, freed exactly at the last one; a count pinned at 0xffff stays |
| Payloads.LivesWhileOwned | lib/onyxudp/payload.cpp:10-72 | in every run of issuing, holding, releasing and passing on, a payload lives exactly as long as somebody owns a reference, with a count of just that many, unless its count once reached 0xffff, when it stays for good |
| Payloads.Settled | lib/onyxudp/udpclient.cpp:36-39 | releasing a whole queue strikes its owner off once for each occurrence, takes nothing from anybody else, and frees exactly the payloads nobody is left to own |
| Payloads.ReleaseEach | lib/onyxudp/udpbase.cpp:140-143 | the loop that empties a queue does that to the counts in memory |
| Membership.RemovedIsParted | lib/onyxudp/udpbase.cpp:149-170 | removing by index, with its search through the peer's list, takes each of the pair off the other's list, keeps the order of the others, and expires a peer left without groups |
| Membership.RemovedAtIs | lib/onyxudp/udpbase.cpp:137-170 | removing by index, place by place: the member at the index leaves the group's list and the group its place in the member's list, or a member of no other group goes; and the application is told of the removal and then of the expiry |
| Membership.PartedSound | lib/onyxudp/udpbase.cpp:149-170 | it keeps the relations converse and free of duplicates, the list of groups linked, and every payload's count right |
| Membership.AddedSound | lib/onyxudp/udpbase.cpp:216-233 | so does adding, whichever append fails |
| Membership.AddedAnswer | lib/onyxudp/udpbase.cpp:216-233 | when adding gives which answer: invalid exactly for a member; out of memory exactly if the first append finds room and the second does not; success without membership exactly for a peer that is no member when the first append finds no room; and whenever the peer does not become a member nothing changes |
| Membership.AddedIs | lib/onyxudp/udpbase.cpp:216-233 | a peer that is no member, when both lists have fewer than 0x100000 entries and memory is there, becomes the last member of the group, and the group the last one of the peer; nothing else changes, and in all other cases nothing at all |
| Membership.OkWithoutMembership | lib/onyxudp/udpbase.cpp:224-232 | one group, one peer in no group, no room: the answer is success and nothing has changed |
| Membership.AddedThenParted | lib/onyxudp/udpbase.cpp:149-233 | removing the peer just added undoes the addition, except that a peer with no other group expires |
| Membership.EmptiedPeers | lib/onyxudp/udpbase.cpp:176-182 | the backwards loop takes the group, and only it, from each member's list, in whose order the others stay, and exactly the members with no other group expire |
| Membership.EmptiedGroups | lib/onyxudp/udpbase.cpp:176-182 | it ends with the group empty and every other group as it was |
| Membership.EmptiedLog | lib/onyxudp/udpbase.cpp:176-182 | the application is told of the members from the last one back |
| Membership.FarewellsCount | lib/onyxudp/udpbase.cpp:137-182 | of each member's removal once, and of each expiry once |
| Membership.FarewellsOrder | lib/onyxudp/udpbase.cpp:137-182 | of two members the one further back in the list is told of first, and each expiry right after the removal |
| Membership.EmptiedLedger | lib/onyxudp/udpbase.cpp:137-147 | the queues of the peers that expire lose their payloads, nobody else does, and a payload is freed only if it had no other owner |
| Membership.DestroyedLedger | lib/onyxudp/udpbase.cpp:172-203 | over a whole destruction, the queues of the peers that expire lose their payloads, nobody else does, and a payload is freed only if it had no other owner |
| Membership.DelistedLinked | lib/onyxudp/udpbase.cpp:186-193 | setting what points to the group to what follows it takes exactly the group out of the list |
| Membership.DestroyedSound | lib/onyxudp/udpbase.cpp:172-203 | destroying a group keeps everything |
| Membership.DestroyedIs | lib/onyxudp/udpbase.cpp:172-203 | and amounts to taking it out of every list, the others in order, with exactly the members of no other group gone; a group that is not in the list of groups stays as it was |
| Membership.DestroyedTold | lib/onyxudp/udpbase.cpp:172-203 | an error is reported exactly if the group was not in the list |
| Membership.RunSound | lib/onyxudp/udpbase.cpp:123-233 | all of this holds after any run of creating, adding, removing and destroying |
| Membership.DiesWithLastGroup | lib/onyxudp/udpbase.h:306-308 | a peer dies exactly when its last group lets it go |
| Membership.NeverListed | lib/onyxudp/udpbase.cpp:123-135 | as shipped the list of groups is always empty and every destruction ends with an error report |
| Groups.Instance.GroupCreate | lib/onyxudp/udpbase.cpp:123-135 | a new group without members that points to the head of the list; the head, the list and all else stay as they were |
| Groups.Instance.Publish | lib/onyxudp/udpbase.cpp:133 | the store that is left out: the list in memory begins with the new group, and nothing else changes |
| Groups.Instance.Admit | lib/onyxudp/udpbase.h:172 | a new peer in no group, with an empty queue, and nothing else changes |
| Groups.Instance.PayloadGet | lib/onyxudp/payload.cpp:25-27 | a new payload with one reference, the application's, and nothing else changes |
| Groups.Instance.Enqueue | lib/onyxudp/udpbase.h:369 | the payload stands at the end of the peer's queue, which has the application's reference now |
| Groups.Instance.PeerAdd | lib/onyxudp/udpbase.cpp:216-233 | memory and answer after adding: peer and group stand at the end of each other's lists and all else is as before, or everything is, the rollback included |
| Groups.Instance.PeerRemoveIx | lib/onyxudp/udpbase.cpp:149-170 | memory and answer after removing by index |
| Groups.Instance.PeerRemove | lib/onyxudp/udpbase.cpp:205-214 | memory and answer after removing by peer |
| Groups.Instance.PeerDestroy | lib/onyxudp/udpbase.cpp:137-147 | memory after a peer expires, each queued payload released once |
| Groups.Instance.GroupDestroy | lib/onyxudp/udpbase.cpp:172-203 | memory after destroying a group |
| Groups.Scan | lib/onyxudp/udpbase.cpp:206-212 | the linear search the group functions share |
| Timers.RetransmitSchedule | lib/onyxudp/udpclient.cpp:213-237 | polled at least every D microseconds, an unanswered connection is sent on that schedule, at most ten times, and given up no earlier than 2,100,010 and no later than 2,100,000 + 10 * D microseconds after its first send |
| Timers.SentOnTime | lib/onyxudp/udpclient.cpp:213-237 | however it is polled, transmission `i` of an unanswered connection comes at the first poll more than 100,000 + 20,000 * `i` microseconds after the one before it, the first at the first poll later than 100,000; it is given up at the first poll more than 300,000 after the tenth; and nothing is overdue |
| Timers.IdleSchedule | lib/onyxudp/udpclient.cpp:239-261 | a silent peer costs at most nine idle packets and is given up at the first poll more than 5,000,000 microseconds after it was last heard of, exactly if there is one |
| Timers.NineIdlePackets | lib/onyxudp/udpclient.cpp:239-261 | nine is exact: polled at the soonest times, a peer that stays silent is sent nine |
| Timers.IdleKeepsTalking | lib/onyxudp/udpclient.cpp:239-261 | in every run of polls of a silent peer, packets are more than 600,000 microseconds apart, and by no poll that keeps the peer is the last packet older than that |
| Timers.AheadOfTheClock | lib/onyxudp/udpclient.cpp:243 | a connected peer is given up exactly if more than 5,000,000 microseconds have passed since it was last heard of; one heard of after the current time, exactly if the difference is less than 2^64 - 5,000,000 |
| Connections.CountAddsUp | lib/onyxudp/types.h:67-76 | the count of a payload that is not pinned is what the application holds, what failed sends lost, and all the connect payloads and queue places it takes up, added over the connections |
| Connections.GivenUp | lib/onyxudp/udpclient.cpp:31-43 | a connection that goes gives up what it owns once, nobody else loses anything, and a payload is freed exactly if it is not pinned and nobody is left |
| Connections.TornSound | lib/onyxudp/udpclient.cpp:278-291 | the other connections still own exactly their connect payloads and queues |
| Connections.HandledSound | lib/onyxudp/udpclient.cpp:218-268 | every handler keeps each connection owning its connect payload once and its queue's payloads as often as they stand there |
| Connections.TurnSound | lib/onyxudp/udpclient.cpp:301-307 | so does a handler followed by the destruction of the connection |
| Connections.TurnFrame | lib/onyxudp/udpclient.cpp:301-307 | which touches no other connection, and happens exactly if the handler says -1 |
| Connections.TurnEnds | lib/onyxudp/udpclient.cpp:218-291 | when that is: a transmission is due and fails, or would be the eleventh; the peer has been silent for more than 5,000,000 microseconds; an idle packet, due after 600,000, cannot be queued; the connection is dead; or the answer left behind is -1. An error is reported exactly for such an idle packet, and after it the end exactly past connecting |
| Connections.TurnKeepsApp | lib/onyxudp/udpclient.cpp:301-307 | and leaves the application holding exactly the references it held, of every payload |
| Connections.GivenKeepsApp | lib/onyxudp/udpclient.cpp:31-43 | so does the end of a connection |
| Connections.StillHeld | lib/onyxudp/types.h:67-76 | so a payload the application holds a reference to stays alive, with as many references of the application's |
| Connections.GivenLoses | lib/onyxudp/udpclient.cpp:31-43 | the end of a connection leaves the references that nobody will give back as they are, and pins and unpins nothing |
| Connections.TurnLoses | lib/onyxudp/udpclient.cpp:220-229 | a turn adds one such reference exactly if its handler sends in vain, to the connect payload; and pins a payload exactly if it sends it when its count is one short |
| Connections.LostByFailedSend | lib/onyxudp/udpclient.cpp:223-226 | whoever else owns it, a payload is there after the end of a connection that has just sent exactly if it is pinned, somebody else owns it, or it was sent in vain; and who then owns it |
| Connections.OwnersSettled | lib/onyxudp/types.h:67-76 | what the connections hold, what the application holds and what is lost settle between them who owns every payload |
| Connections.AllGiven | lib/onyxudp/udpclient.cpp:98-107 | when connections have only given up what they owned, and none is left, a payload is there exactly if it is pinned, or the application or failed sends owned it, with just these owners and that count |
| Connections.AdmittedSound | lib/onyxudp/udpclient.cpp:156-168 | a new connection takes over the reference that came with the call |
| Connections.RefusedSound | lib/onyxudp/udpclient.cpp:132-155 | an exit with an error releases it |
| Connections.ConnectConsumes | lib/onyxudp/udpclient.h:108-118 | whichever way connecting ends, exactly one of the caller's references is used up, and no other payload's |
| Connections.NothingHeld | lib/onyxudp/udpclient.cpp:98-107 | once no connection is left, every payload left belongs to the application or to nobody any more, and its count, unless pinned, is just these references |
| Polls.TurnsPayloads | lib/onyxudp/udpclient.cpp:293-309 | over a whole poll the application holds of every payload what it held, as many references are lost as sends were in vain, payload by payload, and what is pinned stays so |
| Polls.PollIs | lib/onyxudp/udpclient.cpp:293-309 | a poll, given as the turns of all connections one after the other, comes to this: each handler has run once on the connection as it was at the start; the result is the sum of what the handlers say, those that say -1 aside, so zero if all the others say zero; and what is told is told in order |
| Polls.SumJoin | lib/onyxudp/udpclient.cpp:302-307 | that sum is a sum: of one number it is the number, or zero for -1, and over two parts it adds up |
| Polls.EndsTold | lib/onyxudp/udpclient.cpp:278-291 | the application is told of the end of a connection, once, exactly if the poll destroys it past connecting |
| Polls.EndsInSilence | lib/onyxudp/udpclient.cpp:278-281 | a connection sent ten times and never answered is destroyed, its payload freed, and the application told nothing |
| Polls.SilentFate | lib/onyxudp/udpclient.cpp:239-261 | a silent peer that fares as its track says is there after any polls exactly if none of them came more than 5,000,000 microseconds after it was last heard of, its queue having room for the idle packets |
| Polls.UnansweredFate | lib/onyxudp/udpclient.cpp:213-237 | a connection nobody answers that fares as its track says has been sent on the schedule of `Timers.SentOnTime`, and is there exactly until giving up is due; so no longer than 2,100,000 + 9 * D microseconds after it was first sent, and 2,100,010 at least |
| Clients.ConnectionComp | lib/onyxudp/udpclient.cpp:21-23 | comparing addresses says zero exactly for equal ones |
| Clients.AddressesAreCoherent | lib/onyxudp/udpclient.cpp:17-23 | the client's callbacks meet what the table asks, and the hash is that of the bytes of the address |
| Clients.HandleInitial | lib/onyxudp/udpclient.cpp:218-232 | a transmission is due more than 100,000 and 20,000 for each one before microseconds after the last one; up to ten are made, each taking a reference that goes with the packet; the answer is -1 if the send fails, and at the eleventh |
| Clients.HandlePreconnect | lib/onyxudp/udpclient.cpp:234-237 | the same for the first poll: a new connection is sent at once if it is later than 100,000 |
| Clients.HandleConnected | lib/onyxudp/udpclient.cpp:242-261 | a peer silent for more than 5,000,000 microseconds is given up; else, more than 600,000 after the last transmission, one new payload stands at the end of the queue, or, if it cannot, is released and the answer is -1 |
| Clients.Client.Handle | lib/onyxudp/udpclient.cpp:270-276 | dispatch by state, in memory |
| Clients.Client.Free | lib/onyxudp/udpclient.cpp:31-43 | memory after a connection's payloads are released and it is freed |
| Clients.Client.Destroy | lib/onyxudp/udpclient.cpp:278-291 | memory and table after a connection is destroyed, and which node left the order of the table |
| Clients.Client.RestStays | lib/onyxudp/udpclient.cpp:293-309 | destroying one connection leaves what the iterator has ahead where it was |
| Clients.Client.Poll | lib/onyxudp/udpclient.cpp:293-309 | connections, payloads and log are those after one turn of each connection present at the start, in the order of the table; so the handler of each runs once; exactly those whose handler says -1 are destroyed and leave the table; the others stay as their handlers left them; the result is the sum of the other answers, zero if they are all zero; the application is told in order; it holds exactly the references it held; and only sends in vain lose references, one each |
| Clients.Client.PollEach | lib/onyxudp/udpclient.cpp:293-309 | any number of polls, with sends that go through: every connection in memory fares as `Timers.Run` says of its timer, so the two `Fate` lemmas apply |
| Clients.Client.Connect | lib/onyxudp/udpclient.cpp:131-169 | which way connecting ends; with an error for an address already there or no memory, which is reported while the connections stay as they were; or with a new connection that has been sent and polled never, and no report; and what becomes of the table and the payload |
| Clients.Client.Disconnect | lib/onyxudp/udpclient.cpp:171-182 | the connection is taken down and the application told |
| Clients.Client.Terminate | lib/onyxudp/udpclient.cpp:98-107 | every connection is freed once while the iterator walks on, and the table after them; what they owned is released, once each: a payload is left exactly if it is pinned, or the application or failed sends own it, with just these owners and that count |

## Left out

- Sockets, address resolution, threads, sleeping and packet reception: foreign calls, or code that is not there.
- Rehashing: the function is empty, so the table keeps its 32 slots; the load factor the header mentions is not kept.
- Layout in memory: items behind their nodes, owners behind their payloads, memory filled on free. Freed objects leave the image of the memory instead.
- Contents of payloads: the 8-byte control packets are not built, only counted. Their checksum is `Crc.UpdateCrc16`.
- Vectors of pointers in groups, peers and connections are sequences with an append that may fail, not `Vectors.Vector` objects.
- The size of a vector's items: one item is one place, so the product of count and size does not overflow.
- Allocation of a payload, a group or a peer is taken to succeed: the code uses the result unchecked.
- The application's callbacks are entries in a log; they do not call back into the library.
- Enqueueing to peers and groups, and the reception that makes peers: declared without a body. `Groups.Instance.Enqueue` and `Groups.Instance.Admit` stand for them.
- Clients.Client.Connect: says nothing of the state after `Aborted`, the assertion that stops the program when the table finds no memory for a node.
- Timers.RetransmitSchedule: takes every send to go through, because a connection whose send fails is destroyed at once (`Connections.TurnEnds`).
- Timers.IdleSchedule: takes allocation and append to succeed, because a connection whose append fails is destroyed at once (`Connections.TurnEnds`).
- Two-bit errors under CRC-32 at any distance: this needs the order of the generator.
- HashPod.ShortStrings: strings of different lengths are kept apart up to four bytes only.
- Parameters of a client and of an instance, such as the largest payload and the port.
