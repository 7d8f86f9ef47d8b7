# Verified models of a C systems-programming course

The repository is a collection of C programs. Seven parts of it compute or coordinate something whose
correctness is not visible in a single body; this project models those parts and proves what they are for.

| files | program | what is proved |
|---|---|---|
| `Market*.dfy` | shops, buyers and a loader (`11 work/task3.c`) | every interleaving of any number of buyers and shops: lock discipline, no circle of waiting threads, conservation of goods, bounds on stock and work, what the loader's exit and the joins mean, the order of the visits, that the program can finish, exactly when and by which steps a wakeup is lost, and from which states there is no return |
| `Spiral.dfy` | spiral fill (`2 work/task4.c`) | closed form of every cell, every cell written once, bounds and termination of the loop whose guard names the value only, adjacency of consecutive values |
| `Chat*.dfy` | message-queue chat (`13 work/task2/`) | the log as a function of what is sent, the exact stream of every slot, total order of what clients receive, who can hold up the server, what a client's window shows with and without failures |
| `Checksum.dfy`, `Packet.dfy` | Internet checksum and raw packets (`16 work/socket work 4/`) | both C forms against RFC 1071 and exactly when they agree, self-verification, byte and word order, error detection, and a receiver that reads back what was sent |
| `TaskQueue.dfy`, `ReplyServer.dfy`, `Decimals.dfy` | linked queue of a server (`16 work/socket work 2/consProdServer.c`) | the nodes refine a sequence, first in first out over any history, and exactly for which texts a client gets the double of its own number from a buffer that is never cleared |
| `Counter.dfy` | counter under a mutex (`11 work/task2.c`) | no lost update with load and store apart, the printed total |
| `PhoneBooks.dfy` | two phone books (`4 work/`, `6 work/reference_book.c`) | a simulation between deleting by shifting and deleting by moving the last entry |

`Runs.dfy`, `Sums.dfy`, `Integers.dfy` and `Options.dfy` hold what several of them share.

The sequential programs are methods over arrays and heap nodes. Each concurrent program is a state and a step
function with one program counter per thread. A schedule is a sequence of events, so a property of all reachable
states is a property of all runs. Reads and writes of shared variables are separate steps: the mutexes are what
makes `+=`, `-=` and `++` safe, and the proofs show that they do. Next to the step function stands the C code on
the heap, as classes with shop, buyer, table and window objects: the methods execute what a thread does between
two points where it can be held up, in the order of the C statements, and are proved to be runs of the step
function, so that everything proved of all runs holds for them.

Where the code differs from what its output or a standard leads one to expect, the model follows the code:

- The buyer tests the stock under the shop mutex but waits with the loader mutex, and the loader signals holding
  the shop mutex only, so a signal can come between the test and the wait. A second cause is that a delivery is
  signalled to one of several waiting buyers. With any buyer at all the program can come to a state from which it
  never ends, although every input can finish (`MarketProgress.LostWakeupIff`, `MarketProgress.StrandingStepIff`,
  `MarketDoom.SingleDoomedIff`, `MarketProgress.CanFinish`).
- The server of the chat takes every text that begins with `/join` for a join, the client hides only the text that
  is exactly `/join`. A chat line such as `/joining` registers its sender a second time
  (`ChatHistory.KeepsQueueIff`, `ChatTheorems.SecondSlot`, `ChatTheorems.SentTwice`).
- RFC 768 wants a computed UDP check word of zero transmitted as 0xFFFF; the code transmits zero
  (`Packet.ZeroUdpCheckIff`, with `Packet.ZeroUdpCheckExample`).
- The queue server ignores the result of `recv` and never clears its buffer, so a client whose text does not end
  its number can be answered with a foreign one, and a client that sends nothing gets the double of the reply
  before (`ReplyServer.OwnReplyIff`, `ReplyServer.RepliesGoHomeIff`, `ReplyServer.StaleReply`).
- Both phone books number their entries from 1 on the screen, but only the menu of the second one subtracts 1
  before it deletes (`PhoneBooks.ShiftDeletesDisplayedIff`, `PhoneBooks.ShiftDeletesWrongRecord`,
  `PhoneBooks.CompactDeletesDisplayed`).

## Model

| member | source | states |
|---|---|---|
| MarketSafety.BuyerKeepsInv | 11 work/task3.c:27-67 | every statement of a buyer keeps the whole invariant: locks, local facts of all buyers, stock bounds, conservation, count, and the position of main |
| MarketSafety.LoaderKeepsInv | 11 work/task3.c:69-93 | every statement of the loader keeps the whole invariant |
| MarketSafety.WakeKeepsInv | 11 work/task3.c:37-37 | a wakeup, signalled or spurious, keeps the whole invariant |
| MarketSafety.MainKeepsInv | 11 work/task3.c:106-125 | creating, joining and destroying keep the whole invariant |
| MarketSafety.InitInv | 11 work/task3.c:99-112 | the invariant holds at the start, for any number of shops and any initial needs of at least 1 |
| MarketSafety.RunKeepsInv | 11 work/task3.c:27-93 | the invariant holds after every run of every length |
| MarketTheorems.LockDiscipline | 11 work/task3.c:32-63 | in every reachable state critical sections of one mutex exclude each other, no thread holds two mutexes, none asks for a mutex while it holds one, and whatever is unlocked or given up by waiting belongs to the thread that does so |
| MarketTheorems.NoWaitCycle | 11 work/task3.c:32-87 | no circle of threads, of any length, can wait for one another's mutexes |
| MarketTheorems.HolderRuns | 11 work/task3.c:32-87 | whoever holds a mutex has an enabled statement |
| MarketTheorems.SomeThreadRuns | 11 work/task3.c:95-128 | until main has returned, some thread can go on without a spurious wakeup |
| MarketTheorems.GoodsConserved | 11 work/task3.c:42-48 | 5000 times the deliveries equals the stock of all shops plus what has lowered the needs plus what is between the two subtractions; every stock is in 0..9999 and every need between 0 and the initial one |
| MarketTheorems.PurchasePositive | 11 work/task3.c:34-47 | a purchase takes at least one item, all that is needed or all there is, and nobody has changed the stock since it was read |
| MarketTheorems.WorkBounds | 11 work/task3.c:79-88 | purchases are at most the sum of the initial needs, and 5000 times the deliveries at most that sum plus 9999 per shop |
| MarketTheorems.HistoryCounts | 11 work/task3.c:47-82 | the two history counters are the numbers of purchases and deliveries among the events of the run |
| MarketTheorems.RunBounds | 11 work/task3.c:31-88 | the work bounds, stated on the events of the run itself |
| MarketTheorems.LoaderLeavesLast | 11 work/task3.c:58-77 | buyers_satisfied is the number of buyers behind their increment, and when the loader has left, every buyer is there with need exactly 0 |
| MarketTheorems.AfterJoins | 11 work/task3.c:114-125 | when the mutexes and condition variables are destroyed, none is held and nobody waits, all needs are 0, and the stock is 5000 times the deliveries minus the initial needs |
| MarketTours.PurchasesInTurn | 11 work/task3.c:30-65 | in every interleaving purchase k of a buyer is made in shop k modulo the number of shops |
| MarketTours.LoaderRounds | 11 work/task3.c:70-92 | the loader serves the shops in turn and tests the count of satisfied buyers only after complete rounds |
| MarketSegments.Sleeps | 11 work/task3.c:32-37 | a buyer that finds its shop empty and is not disturbed gets from the door into its wait, and nothing else has changed |
| MarketSegments.Buys | 11 work/task3.c:32-54 | an undisturbed purchase, load and store of both subtractions apart, is a run of the step function from the door to behind the unlock that takes the smaller of need and stock |
| MarketSegments.Leaves | 11 work/task3.c:58-63 | an undisturbed departure is a run that counts the buyer once |
| MarketSegments.Serves | 11 work/task3.c:80-87 | an undisturbed stop of the loader is a run that raises a stock below 5000 by 5000 and wakes one of those who wait there, and leaves any other shop alone |
| MarketSegments.WholeRound | 11 work/task3.c:71-88 | while nobody waits, a round of the loader leaves at least 5000 in every shop and changes nothing else |
| MarketProgress.CanFinish | 11 work/task3.c:27-127 | for every number of shops and all initial needs there is a schedule without spurious wakeups on which main returns |
| MarketProgress.StrandedForever | 11 work/task3.c:34-40 | once all buyers wait beside shops with at least 5000 and the loader is not on its way to a signal, they do so in every state that any schedule without spurious wakeups leads to, and main stays at its first join |
| MarketProgress.WakeupsCanBeLost | 11 work/task3.c:34-87 | for every number of shops and all initial needs of one or more buyers there is such a schedule into that situation |
| MarketProgress.LostWakeupIff | 11 work/task3.c:27-127 | a state from which main never returns can be reached if and only if there is a buyer |
| MarketProgress.StrandingStepIff | 11 work/task3.c:34-85 | a step leaves a buyer waiting beside a stocked shop without a signal due if and only if the buyer begins to wait there, or a signal wakes one of several that wait in the same shop |
| MarketDoom.RescuableFinishes | 11 work/task3.c:27-127 | from every state of the invariant, wherever all threads are: if each buyer behind a test that found its shop empty has a delivery or signal to come and is the only one at its shop, main can still return |
| MarketDoom.AllLostDoomed | 11 work/task3.c:34-87 | if everybody who has not left is behind the unlock beside a shop with at least 5000 where no signal is due, main never returns |
| MarketDoom.SingleDoomedIff | 11 work/task3.c:27-127 | with one buyer, in every reachable state: main can no longer return if and only if the buyer is in that situation |
| MarketDoom.DoomedNeeds | 11 work/task3.c:34-87 | with any number of buyers: if main can no longer return, some buyer is in that situation or two are behind their tests at the same shop |
| MarketProgram.Program.constructor | 11 work/task3.c:95-110 | distinct shop and buyer objects that hold the initial state |
| MarketProgram.Program.VisitShop | 11 work/task3.c:32-64 | on the heap and in the order of the C statements: what leaves the shop lowers the need, one of the two comes to nothing, the buyer is asleep exactly if the shop was empty, counted exactly if it needs nothing more and otherwise before the next shop, and all of it is a run of the step function |
| MarketProgram.Program.ServeShop | 11 work/task3.c:80-87 | on the heap: a stop of the loader adds 5000 to a stock below 5000 and wakes one of those who wait there, if there is one, and changes neither stock nor buyers otherwise; it is a run of the step function |
| MarketProgram.Program.LoaderRound | 11 work/task3.c:71-88 | on the heap: the loader leaves exactly if all buyers are counted; otherwise every shop below 5000 gets 5000 more and no other shop changes, and all of it is a run of the step function |
| Spiral.OutsideClosedForm | 2 work/task4.c:8-29 | the cells outside ring k number 4k(n-k), so ring k starts with the value 4k(n-k)+1 |
| Spiral.OutsideSquare | 2 work/task4.c:8-8 | what the rings leave of n*n is the square of n-2k, which ties the loop guard to the borders |
| Spiral.RingLeft | 2 work/task4.c:8-8 | value <= n*n implies that the borders still enclose a ring, and the next ring starts where this one ends, also at the centre cell of an odd n |
| Spiral.Injective | 2 work/task4.c:10-28 | different cells have different values |
| Spiral.NextValue | 2 work/task4.c:10-28 | the next cell of the walk has the next value and shares an edge, around corners and into the next ring |
| Spiral.CellOf | 2 work/task4.c:10-28 | for every value in 1..n*n the walk reaches a cell of the grid with that value |
| Spiral.Bijection | 2 work/task4.c:8-29 | closed form and walk are inverse to each other, so the values are a bijection from the cells to 1..n*n |
| Spiral.ConsecutiveShareEdge | 2 work/task4.c:10-28 | any two cells with consecutive values share an edge |
| Spiral.InnerSpiral | 2 work/task4.c:8-29 | inside the outer ring lies the spiral of the grid that is smaller by two, with every value raised by the length of that ring |
| Spiral.FillTop | 2 work/task4.c:10-12 | the first inner loop writes the top side of the ring, inside the matrix |
| Spiral.FillRight | 2 work/task4.c:15-17 | the second inner loop writes the right side |
| Spiral.FillBottom | 2 work/task4.c:20-22 | the third inner loop writes the bottom side, and nothing when the borders have crossed |
| Spiral.FillLeft | 2 work/task4.c:25-27 | the fourth inner loop writes the left side, and nothing when the borders have crossed |
| Spiral.FillSpiral | 2 work/task4.c:4-30 | the loops end, every index is in bounds, every cell holds the closed form, with 1..n along the top row and on down the right side, back along the bottom and up the left side, and the sequence of writes is the walk, so each cell is written once |
| ChatSafety.StreamShape | 13 work/task2/server.c:90-91 | the complete stream of a slot is its own join, the roster in join order, and every later broadcast |
| ChatSafety.ReceiveKeepsStreams | 13 work/task2/server.c:79-102 | receiving a message keeps the streams exact, whether it is a join, a join into a full chat, or a chat line |
| ChatSafety.SendKeepsStreams | 13 work/task2/server.c:30-59 | every iteration of the broadcast and roster loops, successful or failed, keeps the streams exact |
| ChatSafety.SendKeepsGaps | 13 work/task2/server.c:33-40 | failed opens and sends only leave gaps in a stream |
| ChatSafety.SendKeepsQueues | 13 work/task2/server.c:37-39 | what has gone through a queue stays equal to what was sent for its only slot |
| ChatSafety.SendKeepsRoom | 13 work/task2/server.c:37-37 | no queue ever holds more than its ten messages |
| ChatSafety.ClientKeepsInv | 13 work/task2/client.c:39-151 | whatever a client does, slots and streams stay, queues stay first in first out, and windows stay exact |
| ChatSafety.LinesSifted | 13 work/task2/client.c:51-65 | the filter of the display theorems keeps exactly the messages that are neither "/join" nor "/quit" nor under the own name, in order |
| ChatSafety.RunKeepsInv | 13 work/task2/server.c:77-103 | the invariant holds after every run, and occupied slots never change |
| ChatTheorems.SlotsAreStable | 13 work/task2/server.c:84-88 | at most ten slots, and an occupied slot keeps its queue name in the rest of any run |
| ChatTheorems.OnlySlotIff | 13 work/task2/server.c:84-88 | in every reachable state a queue name is registered once if and only if the log contains no other join under the name of its join |
| ChatTheorems.ReaderKeepsUp | 13 work/task2/server.c:30-59 | without failed calls a queue with one slot has taken in its whole stream, and all but ten messages of that have been read |
| ChatTheorems.TenthMustRead | 13 work/task2/server.c:84-91 | without failed calls the server is not done with the join of the tenth client before that client has read, because its join and the roster are one message more than its queue holds |
| ChatTheorems.SecondSlot | 13 work/task2/server.c:84-88 | for every name and every rest, with "/joining" among them: a run without failed calls on which a client joins, says "/join" and that rest, and holds two slots |
| ChatTheorems.SentTwice | 13 work/task2/server.c:31-37 | without failed calls every broadcast after the second registration is sent into that queue once for each of the two slots |
| ChatTheorems.ServerBlockedIff | 13 work/task2/server.c:30-59 | in every reachable state inside its loops the server is held up if and only if the queue it sends to holds ten messages |
| ChatTheorems.ReaderFreesServer | 13 work/task2/client.c:39-68 | if the client behind that queue runs, at most two steps of its receiver thread let the server go on, without a failed call |
| ChatTheorems.StreamOfSlot | 13 work/task2/server.c:30-59 | whenever the server is receiving, the deliveries tried for a slot are, one by one, the broadcast of its own join, the slots up to itself, and every later broadcast; those made are the same without failures and a subsequence with them |
| ChatTheorems.SentInOrder | 13 work/task2/server.c:31-37 | the broadcasts sent to a slot have strictly increasing positions in the server's order, failures or not |
| ChatHistory.InboxIsFifo | 13 work/task2/server.c:62-82 | over any run the server handles what the clients send in the order in which they send it, and its queue never holds more than ten messages |
| ChatHistory.AcceptedShape | 13 work/task2/server.c:84-102 | of any messages the server accepts all chat lines, in order, and the first joins, as many as there are free slots |
| ChatHistory.LogIsAccepted | 13 work/task2/server.c:77-103 | over every run the log grows by exactly the accepted ones among the messages handled, and the table by the joins among them: a join into a full chat adds nobody and is broadcast to nobody |
| ChatHistory.LogOfRun | 13 work/task2/server.c:77-103 | over every run from the start the log is what the server accepts of all that the clients have sent, in sending order, without what is still in the inbox |
| ChatHistory.KeepsQueueIff | 13 work/task2/server.c:84-88 | over every run, whatever else happens in it: a slot keeps a queue of its own if and only if the server accepts no message whose first five characters are /join under the same name |
| ChatDisplays.WindowLines | 13 work/task2/client.c:51-65 | a window shows, in order and beside nothing else, every message received and done with whose text is neither "/join" nor "/quit" and whose name is not the own one, and under the own name every text sent |
| ChatDisplays.ReceivedIsPrefix | 13 work/task2/client.c:42-43 | a client alone on a queue with one slot has received a prefix of what was sent for it: broadcasts as they stand in the log, and for every roster entry "/join" under the queue name of that slot |
| ChatDisplays.TotalOrder | 13 work/task2/server.c:77-102 | two clients that have both received two broadcasts have received the same messages in the same order, whatever calls have failed |
| ChatDisplays.DisplayFollowsServer | 13 work/task2/client.c:51-65 | without failed calls the lines shown from others are, of a piece of the log that begins with the accepted join of this client, exactly the messages that are neither "/join" nor "/quit" nor its own, in server order |
| ChatDisplays.DisplayWithGaps | 13 work/task2/client.c:51-65 | with any failed calls they are the filtered log from that join on with lines left out: none invented, repeated or out of order |
| ChatProgram.Program.constructor | 13 work/task2/server.c:19-21 | an empty table of ten places that holds the initial state |
| ChatSegments.MadeListed | 13 work/task2/server.c:50-57 | for every pattern of failures: the roster entries made carry "/join" and the queue names of their own slots, in slot order, one for every send that works |
| ChatProgram.Program.Register | 13 work/task2/server.c:86-88 | the next slot of the table is occupied and the others are left alone |
| ChatProgram.Program.BroadcastMessage | 13 work/task2/server.c:30-42 | on the table and the queues: the loop tries the message once for every slot in slot order; a queue that belongs to one slot grows by the message exactly where the calls succeed; and it is a run of the step function |
| ChatProgram.Program.SendUserList | 13 work/task2/server.c:44-59 | on the table and the queues: what the loop adds to the queue of the last slot, whoever shares it, is "/join" under the queue name of every slot in turn, with gaps exactly where the calls fail or the queue holds ten messages already; no other queue changes, and it is a run of the step function |
| ChatProgram.Program.HandleMessage | 13 work/task2/server.c:78-102 | one iteration of the server loop takes one message and leaves the server receiving; a text that begins with /join adds "/client_" and its name to the table if and only if fewer than ten slots are taken, and otherwise changes neither queues nor log; every other text, and every join that is taken, extends the log, and the queue of every slot occupied before that is its own, exactly where the calls work and there is room; a newcomer gets its join and behind it the name of every slot in turn under the same condition; and all of it is a run of the step function |
| ChatProgram.Program.Join | 13 work/task2/client.c:116-118 | on the shared queues: the join is posted if the call works and there is room, and this is a run of the step function |
| ChatProgram.Program.ReceiveMessages | 13 work/task2/client.c:41-68 | on the shared queues and the window: until its queue is empty, the receive loop shows of the messages in it exactly those that are neither "/join" nor "/quit" nor its own, in order, touches no other queue, and is a run of the step function |
| ChatProgram.Program.SendMessages | 13 work/task2/client.c:130-151 | on the shared queues and the window: the input loop posts what is typed before the first text that begins with /quit, without the lines whose send fails, inbox and window grow by exactly what is posted, that text stops the client, and it is a run of the step function |
| ChatSegments.PostingFirst | 13 work/task2/client.c:130-151 | for every pattern of failures: what goes out are the lines whose sends work, in order and unchanged, as many of them as there is room for |
| ChatSegments.PostingAll | 13 work/task2/client.c:130-151 | when every send works and there is room, every line typed before /quit is posted, unchanged and in order |
| Checksum.OnesSumIsResidue | 16 work/socket work 4/rawClient2.c:26-34 | the end-around-carry sum of section 1 of RFC 1071 is the residue of the plain sum modulo 0xFFFF, zero only for zero |
| Checksum.FoldKeepsResidue | 16 work/socket work 4/rawClient2.c:33-34 | a fold keeps the residue and makes any sum wider than 16 bits smaller |
| Checksum.TwoFoldIsResidue | 16 work/socket work 4/rawClient.c:29-32 | two folds suffice for every 32-bit sum |
| Checksum.FoldAll | 16 work/socket work 4/rawClient3.c:39-40 | the fold loop ends with the residue |
| Checksum.FoldTwice | 16 work/socket work 4/rawClient.c:29-32 | two folds, complement and truncation give the complement of the residue |
| Checksum.LoopChecksum | 16 work/socket work 4/rawClient2.c:23-36 | the loop form returns the RFC 1071 checksum of the covered bytes, for every length a C int can hold, odd and negative ones included |
| Checksum.TwoFoldSum | 16 work/socket work 4/rawClient.c:20-33 | the 32-bit form returns the two-fold checksum of the wrapped sum |
| Checksum.TwoFoldCorrectIff | 16 work/socket work 4/rawClient.c:22-32 | the 32-bit form agrees with RFC 1071, and so with the loop form, if and only if the plain sum of the words fits 32 bits |
| Checksum.TwoFoldCorrectUpTo65537Words | 16 work/socket work 4/rawClient.c:25-28 | up to 65537 words it always agrees |
| Checksum.TwoFoldWrongAt65538Words | 16 work/socket work 4/rawClient.c:25-26 | 65538 words of 0xFFFF are a buffer on which it does not |
| Checksum.SelfVerifying | 16 work/socket work 4/rawClient2.c:77-81 | storing the checksum of a block into its zeroed aligned check word makes the block checksum to 0 |
| Checksum.ByteOrderIndependent | 16 work/socket work 4/rawClient2.c:26-35 | swapping the bytes of every word swaps the bytes of the checksum |
| Checksum.WordOrderIrrelevant | 16 work/socket work 4/rawClient2.c:26-29 | any permutation of the words has the same checksum |
| Checksum.PaddingNeutral | 16 work/socket work 4/rawClient2.c:30-32 | an odd buffer checksums like the same buffer and a zero byte |
| Checksum.SplitChecksum | 16 work/socket work 4/rawClient2.c:98-102 | the checksum of a concatenation with an even first part is decided by the folded sums of the parts |
| Checksum.UndetectedSingleWordError | 16 work/socket work 4/rawClient3.c:29-42 | a change of one aligned word goes unnoticed if and only if it is between 0x0000 and 0xFFFF and the rest is not all zero |
| Packet.Sealed | 16 work/socket work 4/rawClient2.c:77-81 | a header with its checksum stored has the same length and verifies |
| Packet.SealedUdp | 16 work/socket work 4/rawClient2.c:98-102 | UDP header and data with the checksum stored verify together with the pseudo-header |
| Packet.SealHeader | 16 work/socket work 4/rawClient3.c:100-101 | in place, the check word becomes the checksum of the header and nothing else changes |
| Packet.UdpChecksum | 16 work/socket work 4/rawClient3.c:121-133 | the temporary pseudogram yields the checksum of pseudo-header, UDP header and data |
| Packet.CarriesOctets | 16 work/socket work 4/rawClient2.c:63-82 | the value of every byte of such a packet but the check words: 0x45, no type of service, the total length, identification 54321, no flags and no fragment offset, ttl, protocol 17, addresses, ports, length and data |
| Packet.Received | 16 work/socket work 4/rawClient2.c:106-109 | a receiver, which takes no fragments, accepts a block that starts with such a packet and reads back the addresses, ports and data |
| Packet.BuildPacket | 16 work/socket work 4/rawClient2.c:63-109 | the packet carries the datagram byte by byte as above with ttl 255, the receiver reads it back, and the rest of the 1024 bytes is zero |
| Packet.FillFrame | 16 work/socket work 4/rawClient3.c:83-133 | the frame holds the Ethernet header and, in place, a packet byte by byte as above with ttl 64 that the receiver reads back; behind the terminator the buffer is untouched |
| Packet.ZeroUdpCheckIff | 16 work/socket work 4/rawClient2.c:102-102 | the check word in the UDP block that is sent is zero exactly if the words of pseudo-header, header and data sum to a positive multiple of 0xFFFF |
| Packet.ZeroUdpCheckExample | 16 work/socket work 4/rawClient2.c:63-102 | with the addresses and ports of the program and the text "@ aC" it is zero, where RFC 768 wants 0xFFFF |
| TaskQueue.Queue.constructor | 16 work/socket work 2/consProdServer.c:20-23 | an empty chain |
| TaskQueue.Queue.Enqueue | 16 work/socket work 2/consProdServer.c:25-38 | the contents grow by the item at the end, in a new node, and the chain stays well formed |
| TaskQueue.Queue.Dequeue | 16 work/socket work 2/consProdServer.c:40-50 | the first node is handed out and the contents lose their first item; an empty queue hands out null |
| TaskQueue.Acyclic | 16 work/socket work 2/consProdServer.c:9-18 | from head, next meets every node once and then ends |
| TaskQueue.Fifo | 16 work/socket work 2/consProdServer.c:25-50 | for every history, what was handed out followed by what is left is what was put in, in order |
| TaskQueue.DequeueHandsOut | 16 work/socket work 2/consProdServer.c:40-50 | after every history a dequeue hands out the first item not yet handed out, and nothing exactly if there is none |
| TaskQueue.Play | 16 work/socket work 2/consProdServer.c:20-50 | the linked queue plays every history like the sequence |
| TaskQueue.Answer | 16 work/socket work 2/consProdServer.c:88-104 | one request goes through the queue, which is empty before and after, and is answered with the printed double of the number at the head of the buffer, old characters included; a line with a number n is answered with 2n |
| TaskQueue.Serve | 16 work/socket work 2/consProdServer.c:81-105 | over every sequence of connections, with one buffer that is never cleared, the sends are these answers in connection order, refused connections left out |
| ReplyServer.NumberDoubled | 16 work/socket work 2/consProdServer.c:88-100 | for every number of an int, with any white space and any sign before it and something behind it that is no digit, and for every buffer: the client is sent the double in decimal, wrapped into an int if it is outside |
| ReplyServer.LinesDoubled | 16 work/socket work 2/consProdServer.c:81-105 | clients that send a line with a number each are sent the doubles, each its own, in connection order |
| ReplyServer.OwnReplyIff | 16 work/socket work 2/consProdServer.c:88-100 | for every text: whatever the buffer holds, the client is sent the double of its own number, if and only if the text fills the buffer, or something that is neither leading white space, nor the sign, nor a digit of the number comes before its end, or it has so many digits that strtol stops at a bound and the reply is the same already |
| ReplyServer.RepliesGoHomeIff | 16 work/socket work 2/consProdServer.c:81-105 | over every sequence of connections: from every connection on and whatever the buffer holds then, all clients are sent the doubles of their own numbers in connection order, if and only if all texts meet that condition |
| ReplyServer.NothingSent | 16 work/socket work 2/consProdServer.c:88-100 | a connection on which nothing arrives is sent the double of the reply before, which differs from the double of its own number if and only if it is not 0 |
| ReplyServer.StaleReply | 16 work/socket work 2/consProdServer.c:88-100 | in every buffer: a client sends 1 and gets 2, and the next one sends nothing and gets 4 |
| Decimals.ReadsForm | 16 work/socket work 2/consProdServer.c:89-89 | `atoi` skips the six white-space characters, takes one sign and the digits up to the first other character |
| Decimals.LineComplete | 16 work/socket work 2/client.c:34-35 | a line with its line feed is complete if and only if it is not blank |
| Decimals.DigitAt | 16 work/socket work 2/consProdServer.c:99-99 | every printed digit is a remainder by ten, and there is no zero in front |
| Decimals.DecimalRoundTrip | 16 work/socket work 2/consProdServer.c:89-99 | reading back what was printed gives the number, whatever stands behind the terminator |
| Counter.ThreadKeepsInv | 11 work/task2.c:7-14 | every statement of a thread, load and store apart, keeps counter equal to the completed stores |
| Counter.RunKeepsInv | 11 work/task2.c:16-27 | the invariant holds after every run |
| Counter.NoLostUpdate | 11 work/task2.c:7-14 | in every reachable state the counter is the sum of the completed stores, a loaded value is current until it is stored, and critical sections exclude each other |
| Counter.FinalCount | 11 work/task2.c:19-25 | main prints the number of threads times the number of iterations |
| Counter.SomeStep | 11 work/task2.c:16-26 | until main is done, some step is possible |
| Counter.Program.IncrementCounter | 11 work/task2.c:7-14 | on the heap: the loop of an undisturbed thread raises the counter by the number of iterations and is a run of the step function |
| Counter.Program.CountUp | 11 work/task2.c:16-27 | on the heap: when the threads run one after the other, main returns in a reachable state and has printed threads times iterations |
| PhoneBooks.ShiftBook.Add | 4 work/reference_book.c:13-27 | the entry is appended, or rejected at 100 |
| PhoneBooks.ShiftBook.Delete | 4 work/reference_book.c:43-52 | the shift loop removes exactly the entry at the index and keeps the order of the others; a bad index changes nothing |
| PhoneBooks.ShiftBook.Search | 4 work/reference_book.c:54-72 | the first entry with the name is found, or there is none |
| PhoneBooks.Find | 4 work/reference_book.c:59-68 | the search loop, the same in both programs, stops at the first entry with the name |
| PhoneBooks.CompactBook.Add | 6 work/reference_book.c:14-28 | the reallocated book is the old one and the entry |
| PhoneBooks.CompactBook.Delete | 6 work/reference_book.c:44-57 | the last entry takes the place of the deleted one; a bad index changes nothing |
| PhoneBooks.CompactBook.Search | 6 work/reference_book.c:60-78 | the first entry with the name is found, or there is none |
| PhoneBooks.DeleteMatched | 6 work/reference_book.c:44-57 | deleting corresponding entries keeps a bijection of positions between equal records |
| PhoneBooks.StepMatchedIff | 4 work/reference_book.c:14-26 | an operation keeps the books matched if and only if it does not overflow the fixed array |
| PhoneBooks.AlwaysMatchedIff | 4 work/reference_book.c:10-52 | over a whole history the books correspond all the way if and only if it stays within 100 entries |
| PhoneBooks.SameRecords | 6 work/reference_book.c:14-78 | after every such history both hold the same records, however often, and a search succeeds in one exactly when it succeeds in the other |
| PhoneBooks.CompactDeletesDisplayed | 6 work/reference_book.c:96-102 | deleting by the displayed number removes exactly the displayed record |
| PhoneBooks.ShiftDeletesDisplayedIff | 4 work/reference_book.c:90-95 | in the other book it does so if and only if the next record exists and is equal |
| PhoneBooks.ShiftDeletesWrongRecord | 4 work/reference_book.c:90-95 | in every book of two different records the number shown beside the first deletes the second, and the number shown beside the second deletes nothing |

## Left out

- Termination of every run of the shops program: it is not a property of the code, as `MarketProgress` and `MarketDoom` show. Sleeps are any delay, and `rand` is any initial need of at least 1.
- MarketProgram.Program.VisitShop: executes without interference, with the mutexes it needs free; interleavings are the subject of the step function. The same holds for the other heap methods of the shops, the chat and the counter.
- Spiral.FillSpiral: takes n >= 1 and unbounded integers; n <= 0 and the overflow of n*n in a C int are not modelled.
- Spiral.FillTop: the four inner loops of one C function are four methods, called in the order and with the borders of the source.
- TaskQueue.Serve: a number too large for an int wraps around, as it does on the usual platforms; a buffer full of digits, behind which `atoi` would read on, ends with the buffer.
- Counter.FinalCount: the counter is unbounded; the program's own 200000 fits a C int.
- Checksum.LoopChecksum: shifts, masks and complements are written as division, remainder and subtraction, with `unsigned long` of 64 bits and little-endian words.
- Checksum.TwoFoldSum: takes the bytes it covers; the one call in rawClient.c passes a length that runs past the header object and is not modelled.
- Packet.FillFrame: the MAC addresses are parameters; `ioctl`, the address texts and the socket calls are left out.
- MarketDoom.DoomedNeeds: is exact for one buyer (`MarketDoom.SingleDoomedIff`); for several, which of the states it names have no return depends on what all the others still need to buy and is not decided.
- ChatProgram.Program.HandleMessage: which calls fail is a parameter, and a send that blocks on a full queue counts as interrupted, which is a failure; waiting until there is room is in the step function.
- Chat: names and texts are strings of any length, so the truncation of queue names is not modelled. A client that quits stops; its unlinked queue shows up as failed opens and sends.
- Chat: the info window, the ncurses layout, the signal handlers, and messages left in a queue from before the start.
- PhoneBooks.CompactBook.Add: a failing allocation, which ends the program, is not modelled; neither are names longer than the record's fields.
- The shared-memory chat, whose mutex is local to each process.
- Bit exercises, string reverse and search, small matrix fills and the calculator, whose properties can be read off one body.
- Socket, select, epoll, pipe, signal, FIFO and shell programs and the file manager, which are I/O.
- The earlier phone book with tombstones (`5 work/task1.c`), a weaker version of the same store.
