# iOS-Demo: verified models

A Dafny 4.11 project that models the algorithmic parts of the iOS-Demo
repository and proves what they promise. `dafny verify dfyconfig.toml` checks
all of it.

## What is modelled

**Two LRU caches.** `LRUCacheNew` (a dictionary over a sentinel doubly linked
list, insert first, evict afterwards) and `LRUCache` (two dictionaries and a
recency array, evict first, insert afterwards). Both are classes whose fields
the methods change in place; each method is proved against one list operation
in `RecencyList`, and `CacheHistory` proves what whole histories of calls do.

- `DoublyLinkedList.dfy`, `LRUCacheNew.dfy`, `LRUCache.dfy`: the objects.
- `RecencyList.dfy`: one step of each cache on its list of entries.
- `CacheHistory.dfy`, `CacheRuns.dfy`: runs, and the theorems about them.

The two caches behave alike when `LRUCacheNew` gets the larger of 1 and
`LRUCache`'s size; at one common size they agree on every history exactly when
that size is positive, because `LRUCache` keeps an entry even at size 0
(its `priority.last` is nil only when there is nothing to evict).

**The general linked list.** `LinkedList.dfy` models every mutating operation on
heap nodes, with `nodes` as the ghost sequence of the `next` chain. The
documentation comments speak of copies in places where the code links the given
nodes themselves (`append(_ node:)`, `insert(_ newNode:at:)`,
`insert(_ list:at:)`); the model follows the code. `insert(_ list:at:)` leaves the
backward links right exactly when nothing of the receiver follows the splice, and the
inserted list object then also sees the receiver's remaining nodes. So the operations are
specified for every list whose `next` chain is right, whatever its `previous` links, and
say exactly when the backward links are right afterwards. `remove` and `reverse` trust
those links: what they leave when a link is wrong is stated too, up to chains that never
end.

**The SQL keyword lookup.** `KeywordTables.dfy` holds the tables of
`keywordhash.h` row by row, `KeywordTokens.dfy` the symbols from the generated
parser's header, `KeywordChecks.dfy` ground facts about every entry of the
tables, and `KeywordHash.dfy` the lookup, proved to agree on every byte string
with a plain search of the 136 keywords. `KeywordSymbols.dfy` says by name which
symbol each keyword gets. Two tokens match if their bytes agree
after clearing bit 5. That is ASCII case-insensitivity except that byte 0x7F
passes for an underscore, and exactly the tokens this concerns are stated. `charMap` is
`sqlite3UpperToLower`, the ASCII lower-casing table
(WCDBTest/Pods/WCDBOptimizedSQLCipher/src/tokenize.c:110). Bytes are unsigned; a
platform with signed `char` gives the same matches, since a byte of 0x80 or more
equals no character of a keyword under either reading.

**The two dispatch-group tests.** `Dispatch.dfy` is one step machine for both, for
any number `n` of queues: the main thread, the queues, the group's counter, the
block handed to `notify`, and the printed lines. A schedule is any sequence of
actions. `DispatchRuns.dfy` has the invariant, `DispatchTheorems.dfy` and
`DispatchSerial.dfy` the theorems, `DispatchOutcomes.dfy` what the result lines mean,
`DispatchInterleaving.dfy` which texts the concurrent test can print, and
`DispatchTest.dfy` the same tests as objects
that change in place, proved to take the machine's steps. The timed wait may give up
whenever the group still has entries. The main queue can run the block only after the
test has returned, because the test runs on the main thread.

**The JSON identifier.** `JsonIdentifier.dfy` and `KeyOrder.dfy`: the recursive
accumulation, and its independence of the order in which dictionaries list their keys.
Keys are compared by scalar value.

**The generated message PersonInfoPB.** `PersonInfo.dfy`: decoding and traversal at the
level of field records, with the vendored runtime's rules for wire types, truncation,
invalid UTF-8 and unknown fields
(SwiftProtobufTest/Pods/SwiftProtobuf/Sources/SwiftProtobuf/BinaryDecoder.swift:294-349,
714-765, 887-898).

**The day-to-month loop.** `DayAxis.dfy`: the month the loop finds for every day, its
366-day period from day 1462 on, and which days get their calendar month, both
counted since January 2016 and, as the function returns it, by its place in the year.

## Model

| member | source | states |
|---|---|---|
| `RecencyList.PutThenEvictIsTouchCut` | SwiftAlgorithmClubTest/SwiftAlgorithmClubTest/ViewController.swift:75-90 | insert-then-evict amounts to moving the key to the front and keeping the `capacity` most recent entries |
| `RecencyList.EvictThenPutIsTouchCut` | SwiftAlgorithmClubTest/SwiftAlgorithmClubTest/LRUCache.swift:32-41 | evict-then-insert amounts to the same with a bound that is never below one |
| `RecencyList.TakeTouch` | SwiftAlgorithmClubTest/SwiftAlgorithmClubTest/ViewController.swift:43-54 | evicting early loses nothing that a later touch and eviction would keep |
| `CacheHistory.RunInvariant` | SwiftAlgorithmClubTest/SwiftAlgorithmClubTest/ViewController.swift:57-91 | no history ever leaves a key twice or more entries than the bound, in either design |
| `CacheHistory.CachesAgree` | SwiftAlgorithmClubTest/SwiftAlgorithmClubTest/LRUCache.swift:21-65 | for every history and every size, `LRUCache(m)` and `LRUCacheNew(max(1, m))` hold the same entries in the same order and give the same answers |
| `CacheHistory.CachesAgreeIffPositive` | SwiftAlgorithmClubTest/SwiftAlgorithmClubTest/LRUCache.swift:32-41 | at one common size the two answer every history alike if and only if the size is at least 1 |
| `CacheHistory.PlaceIsSince` | SwiftAlgorithmClubTest/SwiftAlgorithmClubTest/ViewController.swift:43-46 | a key's place in the move-to-front order is the number of distinct keys touched since it |
| `CacheHistory.ContentsAreMostRecent` | SwiftAlgorithmClubTest/SwiftAlgorithmClubTest/ViewController.swift:67-90 | after any history the cache is the first `capacity` entries of the move-to-front order of its touches, each with its last put value; an eviction drops the least recently used one |
| `CacheHistory.GetAnswersFromHistory` | SwiftAlgorithmClubTest/SwiftAlgorithmClubTest/ViewController.swift:67-73 | a get answers the last put value exactly when fewer than `capacity` other keys were touched since the key was, and nothing otherwise |
| `CacheHistory.StackInclusion` | SwiftAlgorithmClubTest/SwiftAlgorithmClubTest/ViewController.swift:75-90 | with puts alone, the contents at a smaller capacity are a prefix of those at a larger one |
| `CacheHistory.StackInclusionIff` | SwiftAlgorithmClubTest/SwiftAlgorithmClubTest/ViewController.swift:67-90 | with gets too and for any two capacities, the prefix relation holds all along a history if and only if the smaller capacity is not positive or no get in the history finds its key touched recently enough for the larger capacity but not for the smaller |
| `CacheHistory.SplitFromHistory` | SwiftAlgorithmClubTest/SwiftAlgorithmClubTest/ViewController.swift:67-73 | that a get is answered by the larger cache alone can be told from the history, without the contents |
| `CacheHistory.InclusionFails` | SwiftAlgorithmClubTest/SwiftAlgorithmClubTest/ViewController.swift:67-90 | a concrete history after which the smaller cache is no prefix of the larger one |
| `CacheRuns.ReplayNew` | SwiftAlgorithmClubTest/SwiftAlgorithmClubTest/ViewController.swift:125-145 | a `LRUCacheNew` object driven by any history answers and ends as the history model says |
| `CacheRuns.Replay` | SwiftAlgorithmClubTest/SwiftAlgorithmClubTest/ViewController.swift:103-123 | the same for a `LRUCache` object |
| `CacheRuns.ReplayBoth` | SwiftAlgorithmClubTest/SwiftAlgorithmClubTest/ViewController.swift:96-101 | the two objects, driven by one history, give the same answers |
| `DoublyLinkedLists.DoublyLinkedList.constructor` | SwiftAlgorithmClubTest/SwiftAlgorithmClubTest/ViewController.swift:23-29 | two fresh sentinels linked to each other, no nodes between |
| `DoublyLinkedLists.DoublyLinkedList.AddToHead` | SwiftAlgorithmClubTest/SwiftAlgorithmClubTest/ViewController.swift:31-36 | the node becomes the first; the chain of distinct nodes with mutually inverse links is kept |
| `DoublyLinkedLists.DoublyLinkedList.RemoveNode` | SwiftAlgorithmClubTest/SwiftAlgorithmClubTest/ViewController.swift:38-41 | exactly the node's position goes; the chain is kept |
| `DoublyLinkedLists.DoublyLinkedList.MoveToHead` | SwiftAlgorithmClubTest/SwiftAlgorithmClubTest/ViewController.swift:43-46 | the node's position moves to the front, the others keep their order |
| `DoublyLinkedLists.DoublyLinkedList.RemoveTail` | SwiftAlgorithmClubTest/SwiftAlgorithmClubTest/ViewController.swift:48-54 | the last node goes and is returned; null exactly on the empty list |
| `LRUCacheNews.LRUCacheNew.constructor` | SwiftAlgorithmClubTest/SwiftAlgorithmClubTest/ViewController.swift:62-65 | an empty cache, for any capacity |
| `LRUCacheNews.LRUCacheNew.Get` | SwiftAlgorithmClubTest/SwiftAlgorithmClubTest/ViewController.swift:67-73 | answers the looked-up value, moves a found key to the front, and keeps dictionary and list in correspondence |
| `LRUCacheNews.LRUCacheNew.Put` | SwiftAlgorithmClubTest/SwiftAlgorithmClubTest/ViewController.swift:75-90 | the contents become those of insert-then-evict; dictionary and list stay in correspondence, within max(0, capacity) |
| `LRUCacheNews.FiledMoved` | SwiftAlgorithmClubTest/SwiftAlgorithmClubTest/ViewController.swift:68-70 | moving a node to the front keeps every node filed under its own key, and nothing else filed |
| `LRUCacheNews.FiledWithoutLast` | SwiftAlgorithmClubTest/SwiftAlgorithmClubTest/ViewController.swift:84-88 | dropping the last node with its key keeps that correspondence |
| `LRUCaches.LRUCache.constructor` | SwiftAlgorithmClubTest/SwiftAlgorithmClubTest/LRUCache.swift:17-19 | an empty cache, for any size |
| `LRUCaches.LRUCache.Get` | SwiftAlgorithmClubTest/SwiftAlgorithmClubTest/LRUCache.swift:21-30 | answers the looked-up value and moves a found key to the front; the three structures keep one key set |
| `LRUCaches.LRUCache.Set` | SwiftAlgorithmClubTest/SwiftAlgorithmClubTest/LRUCache.swift:32-41 | the contents become those of evict-then-insert, within max(1, maxSize) |
| `LRUCaches.LRUCache.Remove` | SwiftAlgorithmClubTest/SwiftAlgorithmClubTest/LRUCache.swift:43-57 | the key leaves all three structures; the diagnostic for a key missing from `priority` is never printed |
| `LRUCaches.LRUCache.Insert` | SwiftAlgorithmClubTest/SwiftAlgorithmClubTest/LRUCache.swift:59-65 | the entry comes first in all three structures |
| `LRUCaches.ParallelWithout` | SwiftAlgorithmClubTest/SwiftAlgorithmClubTest/LRUCache.swift:49-56 | removing a key from each structure keeps them parallel |
| `LinkedLists.LinkedList.Last` | SwiftAlgorithmClubTest/SwiftAlgorithmClubTest/LinkedList.swift:22-31 | the last node of the chain, or null |
| `LinkedLists.LinkedList.Count` | SwiftAlgorithmClubTest/SwiftAlgorithmClubTest/LinkedList.swift:39-50 | the length of the chain |
| `LinkedLists.LinkedList.NodeAt` | SwiftAlgorithmClubTest/SwiftAlgorithmClubTest/LinkedList.swift:68-86 | the node at the index, for every index in range |
| `LinkedLists.LinkedList.Append` | SwiftAlgorithmClubTest/SwiftAlgorithmClubTest/LinkedList.swift:91-94 | a fresh node with the value at the end of any forward chain; the backward links are right if and only if they were |
| `LinkedLists.LinkedList.AppendNode` | SwiftAlgorithmClubTest/SwiftAlgorithmClubTest/LinkedList.swift:99-107 | the node itself, with the chain behind it, at the end; when the backward links are then right; and if that chain meets the receiver or never ends, following `next` never ends |
| `LinkedLists.LinkedList.AppendList` | SwiftAlgorithmClubTest/SwiftAlgorithmClubTest/LinkedList.swift:112-118 | fresh copies of the other list's values at the end, the other list unchanged; terminates because the lists share no node |
| `LinkedLists.LinkedList.AppendListRounds` | SwiftAlgorithmClubTest/SwiftAlgorithmClubTest/LinkedList.swift:112-118 | if they share one, then after any number of rounds there is still a node left to copy |
| `LinkedLists.LinkedList.Insert` | SwiftAlgorithmClubTest/SwiftAlgorithmClubTest/LinkedList.swift:125-128 | a fresh node with the value at the index of any forward chain; the backward links are right if and only if those of the nodes not at the index were |
| `LinkedLists.LinkedList.InsertNode` | SwiftAlgorithmClubTest/SwiftAlgorithmClubTest/LinkedList.swift:135-148 | the node itself at the index, and when the backward links are then right; for a node the list already holds, whether nodes are lost or the chain becomes endless |
| `LinkedLists.LinkedList.InsertList` | SwiftAlgorithmClubTest/SwiftAlgorithmClubTest/LinkedList.swift:155-171 | the forward chain and the values are s[..i] + t + s[i..], the inserted object sees t + s[i..], every backward link is told, and between well-linked lists they are right if and only if i is the receiver's length; of lists that share a node an insertion at 0 makes an endless one |
| `LinkedLists.LinkedList.SpliceStalls` | SwiftAlgorithmClubTest/SwiftAlgorithmClubTest/LinkedList.swift:163-168 | at a later index, lists that share a node before it leave the search for the last node in an endless chain |
| `LinkedLists.LinkedList.SpliceStallsLater` | SwiftAlgorithmClubTest/SwiftAlgorithmClubTest/LinkedList.swift:163-169 | and lists that share one only from it on, the search that follows |
| `LinkedLists.SplicedBackLinks` | SwiftAlgorithmClubTest/SwiftAlgorithmClubTest/LinkedList.swift:165-169 | a spliced chain is linked backwards if and only if no node follows the splice |
| `LinkedLists.EndlessReading` | SwiftAlgorithmClubTest/SwiftAlgorithmClubTest/LinkedList.swift:22-50 | where following `next` never leaves a set of nodes and never ends, any number of steps leads to a node of it, so the loops of `last` and `count`, which only read, do not stop |
| `LinkedLists.EndlessNoChain` | SwiftAlgorithmClubTest/SwiftAlgorithmClubTest/LinkedList.swift:39-50 | such a list has no chain |
| `LinkedLists.LinkedList.RemoveAll` | SwiftAlgorithmClubTest/SwiftAlgorithmClubTest/LinkedList.swift:174-176 | the empty list |
| `LinkedLists.LinkedList.RemoveNode` | SwiftAlgorithmClubTest/SwiftAlgorithmClubTest/LinkedList.swift:182-196 | what is left of the chain, decided by the node's `previous`; exactly that node goes if and only if its `previous` is right, and then the values lose just its value; its links are cleared and its value is returned |
| `LinkedLists.LinkedList.RemoveForeignNode` | SwiftAlgorithmClubTest/SwiftAlgorithmClubTest/LinkedList.swift:182-196 | a node of another list is unlinked there, but if it is the first one, the receiver gets the rest of that list in place of its own nodes |
| `LinkedLists.LinkedList.RemoveLast` | SwiftAlgorithmClubTest/SwiftAlgorithmClubTest/LinkedList.swift:201-204 | the last value is returned; of a well-linked list the last node goes, of any other what the node's `previous` decides |
| `LinkedLists.LinkedList.RemoveAt` | SwiftAlgorithmClubTest/SwiftAlgorithmClubTest/LinkedList.swift:210-213 | the value at the index is returned; just its node goes if and only if the node's `previous` is right |
| `LinkedLists.RemainsIff` | SwiftAlgorithmClubTest/SwiftAlgorithmClubTest/LinkedList.swift:182-196 | what a removal leaves is the chain without the node's position if and only if the node's `previous` is the node before it |
| `LinkedLists.LinkedList.InsertThenRemove` | SwiftAlgorithmClubTest/SwiftAlgorithmClubTest/LinkedList.swift:125-213 | on any forward chain, removing at an index what was inserted there returns the value and restores the nodes and every link, except that a wrong `previous` at the index comes right |
| `LinkedLists.LinkedList.Reverse` | SwiftAlgorithmClubTest/SwiftAlgorithmClubTest/LinkedList.swift:234-241 | terminates on every chain and swaps all links; the reversed sequence, with the reversed values, is a list in both directions if and only if the backward links were right before |
| `LinkedLists.LinkedList.ReverseFromBreak` | SwiftAlgorithmClubTest/SwiftAlgorithmClubTest/LinkedList.swift:234-241 | if the backward links break off at a node, reversing keeps only what follows it |
| `LinkedLists.LinkedList.ReverseInCircle` | SwiftAlgorithmClubTest/SwiftAlgorithmClubTest/LinkedList.swift:234-241 | if a node's backward link leads to the last node, reversing makes the chain go round in a circle |
| `LinkedLists.LinkedList.ReverseCircle` | SwiftAlgorithmClubTest/SwiftAlgorithmClubTest/LinkedList.swift:234-241 | reversing such a circle does end, and leaves a list that goes back and forth between its first two nodes |
| `LinkedLists.LinkedList.SpliceFrontThenReverse` | SwiftAlgorithmClubTest/SwiftAlgorithmClubTest/LinkedList.swift:155-241 | after a splice in front of a non-empty list, reversing gives the reversed receiver and loses the inserted nodes |
| `LinkedLists.LinkedList.SpliceInsideThenReverse` | SwiftAlgorithmClubTest/SwiftAlgorithmClubTest/LinkedList.swift:155-241 | after a splice at 0 < i < count, reversing makes the chain endless |
| `LinkedLists.LinkedList.SpliceInsideThenReverseTwice` | SwiftAlgorithmClubTest/SwiftAlgorithmClubTest/LinkedList.swift:155-241 | and reversing it once more ends at the receiver's old last node, still endless |
| `LinkedLists.LinkedList.SpliceFrontThenRemove` | SwiftAlgorithmClubTest/SwiftAlgorithmClubTest/LinkedList.swift:155-213 | after a splice in front, removing the node behind the inserted ones takes them out too |
| `LinkedLists.LinkedList.SpliceBeforeLastThenRemoveLast` | SwiftAlgorithmClubTest/SwiftAlgorithmClubTest/LinkedList.swift:155-204 | after a splice before the last node, removing the last node leaves it in the list |
| `LinkedLists.SpliceBreaksBackLinks` | SwiftAlgorithmClubTest/SwiftAlgorithmClubTest/LinkedList.swift:155-171 | two lists of one value each whose splice is not linked backwards |
| `LinkedLists.ReverseLosesInserted` | SwiftAlgorithmClubTest/SwiftAlgorithmClubTest/LinkedList.swift:234-241 | the same splice, reversed: one of the two values is left |
| `LinkedLists.ReversedLinks` | SwiftAlgorithmClubTest/SwiftAlgorithmClubTest/LinkedList.swift:234-241 | after the swaps, the reversed sequence is a chain exactly when each `next` leads to the former predecessor |
| `LinkedLists.LinkedList.ReverseTwice` | SwiftAlgorithmClubTest/SwiftAlgorithmClubTest/LinkedList.swift:234-241 | reversing twice restores every link |
| `LinkedLists.LinkedList.Map` | SwiftAlgorithmClubTest/SwiftAlgorithmClubTest/LinkedList.swift:246-254 | a fresh list of the transformed values, in order |
| `LinkedLists.LinkedList.Filter` | SwiftAlgorithmClubTest/SwiftAlgorithmClubTest/LinkedList.swift:256-266 | a fresh list of the filtered values |
| `LinkedLists.FilterSeqKeeps` | SwiftAlgorithmClubTest/SwiftAlgorithmClubTest/LinkedList.swift:256-266 | the filtered values are exactly those that satisfy the predicate, each of their places once, in order |
| `LinkedLists.LinkedList.EndIndex` | SwiftAlgorithmClubTest/SwiftAlgorithmClubTest/LinkedList.swift:306-314 | the end carries the head node and the count as its tag |
| `LinkedLists.SamePlaceIff` | SwiftAlgorithmClubTest/SwiftAlgorithmClubTest/LinkedList.swift:330-339 | two places are the same if and only if their tags are, whatever their nodes |
| `LinkedLists.LinkedList.Iterate` | SwiftAlgorithmClubTest/SwiftAlgorithmClubTest/LinkedList.swift:288-325 | stepping from start to end, compared by tag only, takes exactly `count` steps, visits the values in order and never dereferences nil |
| `KeywordTables.zKWText` | WCDBTest/Pods/WCDBOptimizedSQLCipher/keywordhash.h:27-63 | the packed text consists of capital letters and underscores |
| `KeywordTables.aKWHash` | WCDBTest/Pods/WCDBOptimizedSQLCipher/keywordhash.h:65-76 | every bucket head is a keyword counted from 1, or 0 |
| `KeywordTables.aKWNext` | WCDBTest/Pods/WCDBOptimizedSQLCipher/keywordhash.h:80-92 | every successor, counted from 1, comes before its keyword, so chains end |
| `KeywordTables.aKWCode` | WCDBTest/Pods/WCDBOptimizedSQLCipher/keywordhash.h:123-152 | no keyword has the symbol of an identifier |
| `KeywordChecks.AllSound` | WCDBTest/Pods/WCDBOptimizedSQLCipher/keywordhash.h:27-121 | every keyword is spelled by the text inside its bounds, lies on the chain of its own bucket, and no keyword further down that chain has its text |
| `KeywordHash.MatchOnChain` | WCDBTest/Pods/WCDBOptimizedSQLCipher/keywordhash.h:160-171 | a token that reads as a keyword, whatever the case of its letters, hashes to a chain that holds the keyword |
| `KeywordHash.ChainTextsDiffer` | WCDBTest/Pods/WCDBOptimizedSQLCipher/keywordhash.h:77-92 | two keywords on one chain have different texts |
| `KeywordHash.OneReading` | WCDBTest/Pods/WCDBOptimizedSQLCipher/keywordhash.h:161-171 | no token reads as two keywords |
| `KeywordHash.KeywordCode` | WCDBTest/Pods/WCDBOptimizedSQLCipher/keywordhash.h:156-313 | for every byte string and length, the chain walk writes the code that a plain search of all keywords finds, and writes nothing when there is none; all table and text accesses are in bounds |
| `KeywordHash.SqliteKeywordCode` | WCDBTest/Pods/WCDBOptimizedSQLCipher/keywordhash.h:314-318 | the code of the plain search, or the identifier symbol |
| `KeywordHash.SqliteKeywordName` | WCDBTest/Pods/WCDBOptimizedSQLCipher/keywordhash.h:320-325 | succeeds exactly on the indices 0..135, and then points at the keyword's text and length |
| `KeywordHash.SqliteKeywordCheck` | WCDBTest/Pods/WCDBOptimizedSQLCipher/keywordhash.h:327-329 | true if and only if the name reads as one of the keywords |
| `KeywordHash.CodeOfKeyword` | WCDBTest/Pods/WCDBOptimizedSQLCipher/keywordhash.h:308-309 | every spelling of a keyword gets that keyword's code |
| `KeywordHash.NamesAreKeywords` | WCDBTest/Pods/WCDBOptimizedSQLCipher/keywordhash.h:314-329 | every name that `sqlite3_keyword_name` gives out is recognised, with its own code |
| `KeywordSymbols.InTables` | WCDBTest/Pods/WCDBOptimizedSQLCipher/keywordhash.h:123-307 | every name of an alphabetical list of names and symbols stands in the tables, at a given place and with the same symbol |
| `KeywordSymbols.InList` | WCDBTest/Pods/WCDBOptimizedSQLCipher/keywordhash.h:123-307 | and every entry of the tables stands in the list |
| `KeywordSymbols.SymbolOfName` | WCDBTest/Pods/WCDBOptimizedSQLCipher/keywordhash.h:156-315 | a token that reads as a listed name gets the symbol listed for that name |
| `KeywordSymbols.SymbolOfCapitals` | WCDBTest/Pods/WCDBOptimizedSQLCipher/keywordhash.h:156-319 | each listed name in capitals gets its symbol |
| `KeywordSymbols.NoSymbolOtherwise` | WCDBTest/Pods/WCDBOptimizedSQLCipher/keywordhash.h:156-315 | a token that reads as no listed name gets no keyword's symbol |
| `KeywordBytes.ByteIsAscii` | WCDBTest/Pods/WCDBOptimizedSQLCipher/keywordhash.h:27-63 | the byte codes of the packed text's characters are their ASCII codes |
| `KeywordHash.FoldIsCaseOfUndel` | WCDBTest/Pods/WCDBOptimizedSQLCipher/keywordhash.h:166 | for one byte, the fold is ASCII case-insensitivity once 0x7F is taken for an underscore |
| `KeywordHash.ReadsIffUndelSame` | WCDBTest/Pods/WCDBOptimizedSQLCipher/keywordhash.h:166 | a token matches a keyword if and only if it equals it up to case once every 0x7F is an underscore; it equals it up to case if and only if it matches and has no 0x7F |
| `KeywordHash.CheckIgnoresCaseIff` | WCDBTest/Pods/WCDBOptimizedSQLCipher/keywordhash.h:160-171 | the tokens `sqlite3_keyword_check` accepts are the case-insensitive keywords, except exactly for tokens with a 0x7F that are keywords once it is an underscore |
| `KeywordHash.DelPassesForUnderscore` | WCDBTest/Pods/WCDBOptimizedSQLCipher/keywordhash.h:166 | a concrete token in the exceptional class |
| `Dispatch.LineNumber` | DispatchGroupTest/DispatchGroupTest/ViewController.swift:24-28 | the k-th number of queue i is 2*i*n + k |
| `DispatchRuns.ReachableInv` | DispatchGroupTest/DispatchGroupTest/ViewController.swift:19-91 | counter, block, printed lines and thread positions stay consistent in every reachable state of either test |
| `DispatchTheorems.TasksPrintInOrder` | DispatchGroupTest/DispatchGroupTest/ViewController.swift:30-36 | under every schedule each queue's label and numbers appear in order |
| `DispatchTheorems.NothingPrintedTwice` | DispatchGroupTest/DispatchGroupTest/ViewController.swift:24-36 | no label and no number is printed twice |
| `DispatchTheorems.ClosingMeansComplete` | DispatchGroupTest/DispatchGroupTest/ViewController.swift:39-52 | a successful wait, and the main-queue block, come after all lines of all queues |
| `DispatchTheorems.StepDecreases` | DispatchGroupTest/DispatchGroupTest/ViewController.swift:19-91 | every step that happens lowers one measure |
| `DispatchTheorems.NeverStuck` | DispatchGroupTest/DispatchGroupTest/ViewController.swift:19-91 | until everything is over some step other than a timeout can happen |
| `DispatchTheorems.FairRunsFinish` | DispatchGroupTest/DispatchGroupTest/ViewController.swift:19-91 | under every fair schedule every wait is released, all lines are printed, and the block runs once |
| `DispatchOutcomes.TimedOutNeedsTimeOut` | DispatchGroupTest/DispatchGroupTest/ViewController.swift:45-51 | unless the wait gives up, no schedule of either test prints that it did |
| `DispatchOutcomes.TimedOutMeansBusy` | DispatchGroupTest/DispatchGroupTest/ViewController.swift:45-51 | when it prints that, the main thread was at the final wait and some task had not left the group |
| `DispatchOutcomes.TimeOutHappens` | DispatchGroupTest/DispatchGroupTest/ViewController.swift:45-51 | for every number of queues some schedule of the concurrent test does time out |
| `DispatchOutcomes.FairRunsSucceed` | DispatchGroupTest/DispatchGroupTest/ViewController.swift:38-48 | a fair schedule in which the wait never gives up ends with the success line and the main-queue block, in either test |
| `DispatchInterleaving.EveryMergeIsPrinted` | DispatchGroupTest/DispatchGroupTest/ViewController.swift:30-36 | every merge of the queues' scripts, or of beginnings of them, with the labels in order is printed by some schedule of the concurrent test |
| `DispatchInterleaving.PrintedIffMerged` | DispatchGroupTest/DispatchGroupTest/ViewController.swift:30-36 | before the closing lines, exactly these texts are printed |
| `DispatchSerial.CounterBalanced` | DispatchGroupTest/DispatchGroupTest/ViewController.swift:66-75 | the doubled enter and leave accounting: 2, 1, 0 for each queue, and 0 before the next |
| `DispatchSerial.OneOrderOnly` | DispatchGroupTest/DispatchGroupTest/ViewController.swift:54-91 | under every schedule the serial test has printed a prefix of one fixed text |
| `DispatchSerial.FairRunsTellAll` | DispatchGroupTest/DispatchGroupTest/ViewController.swift:54-91 | under every fair schedule it prints exactly that text; the timed wait succeeds |
| `DispatchSerial.NumbersRise` | DispatchGroupTest/DispatchGroupTest/ViewController.swift:60-64 | the numbers in that text rise strictly |
| `DispatchTest.TestRun.constructor` | DispatchGroupTest/DispatchGroupTest/ViewController.swift:19-21 | the machine's initial state, with nothing submitted or printed |
| `DispatchTest.TestRun.RunMain` | DispatchGroupTest/DispatchGroupTest/ViewController.swift:30-91 | the main thread's statements take the machine's steps |
| `DispatchTest.TestRun.Work` | DispatchGroupTest/DispatchGroupTest/ViewController.swift:24-35 | a queue's statements take the machine's steps |
| `DispatchTest.TestRun.Execute` | DispatchGroupTest/DispatchGroupTest/ViewController.swift:19-91 | any schedule of the objects is a run of the machine |
| `JsonIdentifier.DecimalRoundTrip` | JsonTest/JsonTest/ViewController.swift:129-132 | the text of an array index is decimal digits that denote that index |
| `JsonIdentifier.GenerateJsonUniqueIdentifier` | JsonTest/JsonTest/ViewController.swift:120-154 | the parent's text followed by the identifier of the value alone |
| `JsonIdentifier.IdentifierOfLeaves` | JsonTest/JsonTest/ViewController.swift:120-153 | empty containers give nothing, a scalar its text, anything else "UnknownType" |
| `JsonIdentifier.IdentifierOfLongerArray` | JsonTest/JsonTest/ViewController.swift:129-132 | one more item adds the text of its index and its own identifier |
| `JsonIdentifier.IdentifierOfLargerObject` | JsonTest/JsonTest/ViewController.swift:124-128 | one more field, with a key above all others, adds the key and the identifier of its value |
| `JsonIdentifier.IdentifierIgnoresKeyOrder` | JsonTest/JsonTest/ViewController.swift:120-154 | values equal up to the order of object keys, at any depth, have one identifier |
| `JsonIdentifier.ShuffledFieldsSameIdentifier` | JsonTest/JsonTest/ViewController.swift:124-128 | listing a dictionary's fields in another order leaves the identifier unchanged |
| `KeyOrder.SortedForgetsOrder` | JsonTest/JsonTest/ViewController.swift:126 | sorting two arrangements of the same keys gives the same sequence |
| `KeyOrder.SortedAscends` | JsonTest/JsonTest/ViewController.swift:126 | the keys are visited in ascending order |
| `KeyOrder.AtMostIff` | JsonTest/JsonTest/ViewController.swift:126 | a key comes before another if it is a beginning of it or has the smaller scalar at the first difference |
| `PersonInfoPB.DecodeMessage` | SwiftProtobufTest/SwiftProtobufTest/PersonInfoPB.pb.swift:58-71 | the loop computes the fold of the records, stops at invalid text, and keeps the skipped records |
| `PersonInfoPB.DecodeFailsIff` | SwiftProtobufTest/SwiftProtobufTest/PersonInfoPB.pb.swift:58-71 | decoding fails if and only if a text record of field 2 or 4 is not valid UTF-8 |
| `PersonInfoPB.LastRecordDecides` | SwiftProtobufTest/SwiftProtobufTest/PersonInfoPB.pb.swift:58-71 | the last record of a singular field with its wire type decides it, even by the default value |
| `PersonInfoPB.NoRecordKeeps` | SwiftProtobufTest/SwiftProtobufTest/PersonInfoPB.pb.swift:58-71 | without such a record the field keeps its value |
| `PersonInfoPB.ListsGather` | SwiftProtobufTest/SwiftProtobufTest/PersonInfoPB.pb.swift:58-71 | field 4 and the unknown records gather all of theirs, in order |
| `PersonInfoPB.Traverse` | SwiftProtobufTest/SwiftProtobufTest/PersonInfoPB.pb.swift:73-87 | non-default fields in the order of their numbers, then the unknown ones |
| `PersonInfoPB.TraversalInOrder` | SwiftProtobufTest/SwiftProtobufTest/PersonInfoPB.pb.swift:73-87 | the numbers of the visited fields rise, only field 4 repeats, and the unknown records come last |
| `PersonInfoPB.SingularFieldsVisited` | SwiftProtobufTest/SwiftProtobufTest/PersonInfoPB.pb.swift:74-82 | fields 1, 2 and 3 are visited with their own values, exactly when these are not the default ones |
| `PersonInfoPB.RepeatedFieldVisited` | SwiftProtobufTest/SwiftProtobufTest/PersonInfoPB.pb.swift:83-85 | the texts of field 4 come in their order, right before the unknown records |
| `PersonInfoPB.Equal` | SwiftProtobufTest/SwiftProtobufTest/PersonInfoPB.pb.swift:89-96 | the comparison is equality of all five fields |
| `PersonInfoPB.Int32RoundTrip` | SwiftProtobufTest/SwiftProtobufTest/PersonInfoPB.pb.swift:66 | truncation undoes the sign extension of a 32-bit field |
| `PersonInfoPB.DecodeEncodedIff` | SwiftProtobufTest/SwiftProtobufTest/PersonInfoPB.pb.swift:58-87 | decoding an encoded message into another merges the two if and only if none of its unknown records would be consumed by a declared field |
| `PersonInfoPB.ConcatenationMergesIff` | SwiftProtobufTest/SwiftProtobufTest/PersonInfoPB.pb.swift:58-87 | concatenated encodings decode to the merge (last non-default value wins, repeated and unknown fields add up) if and only if that holds of both messages' unknown records |
| `PersonInfoPB.RoundTripIff` | SwiftProtobufTest/SwiftProtobufTest/PersonInfoPB.pb.swift:58-96 | a message survives encoding and decoding if and only if none of its unknown records would be consumed by a declared field |
| `PersonInfoPB.RoundTripFails` | SwiftProtobufTest/SwiftProtobufTest/PersonInfoPB.pb.swift:58-87 | a concrete message that does not |
| `PersonInfoPB.DecodedSurvives` | SwiftProtobufTest/SwiftProtobufTest/PersonInfoPB.pb.swift:58-96 | whatever was decoded can be encoded and decoded again without loss |
| `DayAxis.DetermineMonth` | DGChartsTest/DGChartsTest/Formatters/DayAxisValueFormatter.swift:70-85 | for every day from 1 on, k mod 12 for a k with Start(k) < day <= Start(k+1), which is the calendar's month if and only if the months that have begun in the calendar but not yet in the loop are a multiple of 12; 0 for earlier days |
| `DayAxis.MonthUnique` | DGChartsTest/DGChartsTest/Formatters/DayAxisValueFormatter.swift:70-85 | that k is the only one |
| `DayAxis.YearRightIff` | DGChartsTest/DGChartsTest/Formatters/DayAxisValueFormatter.swift:100-108 | the year shown with a day is the calendar's if and only if the day is from 1 to 1827 and none of 731, 1095, 1096, 1459, 1460 and 1461 |
| `DayAxis.YearRises` | DGChartsTest/DGChartsTest/Formatters/DayAxisValueFormatter.swift:100-108 | that year never falls from one day to the next, from 2016 to 2020 |
| `DayAxis.JulianLeapYears` | DGChartsTest/DGChartsTest/Formatters/DayAxisValueFormatter.swift:49-62 | before 1582 every fourth year is a leap year, counted without a year 0 |
| `DayAxis.GregorianLeapDays` | DGChartsTest/DGChartsTest/Formatters/DayAxisValueFormatter.swift:49-62 | from 1583 on the lengths of February add up by the Gregorian rule, in closed form |
| `DayAxis.InYear` | DGChartsTest/DGChartsTest/Formatters/DayAxisValueFormatter.swift:49-68 | within a year of the loop the months begin where a year's months begin, with February's length looked up from the running sum |
| `DayAxis.LaterYears` | DGChartsTest/DGChartsTest/Formatters/DayAxisValueFormatter.swift:100-108 | Start(48 + 12j) = 1461 + 366j for every j |
| `DayAxis.MonthsRepeat` | DGChartsTest/DGChartsTest/Formatters/DayAxisValueFormatter.swift:70-108 | beyond day 1461 the months repeat every 366 days |
| `DayAxis.CalendarAgreesIff` | DGChartsTest/DGChartsTest/Formatters/DayAxisValueFormatter.swift:70-108 | the loop's k-th month begins when the calendar's does if and only if k is at most 61 (February 2021) |
| `DayAxis.CalendarMonthIff` | DGChartsTest/DGChartsTest/Formatters/DayAxisValueFormatter.swift:70-108 | a day gets its calendar month, counted since January 2016, if and only if that month has not ended before the day |
| `DayAxis.BetweenIff` | DGChartsTest/DGChartsTest/Formatters/DayAxisValueFormatter.swift:70-108 | the months that have begun in the calendar but not yet in the loop are exactly those after the loop's month k up to the calendar's month c, so k <= c |
| `DayAxis.ReturnedMonthIff` | DGChartsTest/DGChartsTest/Formatters/DayAxisValueFormatter.swift:70-85 | the month returned is the calendar's, for every day, if and only if the number of those months is a multiple of 12 |
| `DayAxis.MisplacedIff` | DGChartsTest/DGChartsTest/Formatters/DayAxisValueFormatter.swift:70-108 | month and year are the calendar's if and only if there is no such month |
| `DayAxis.FirstMisplacedDay` | DGChartsTest/DGChartsTest/Formatters/DayAxisValueFormatter.swift:70-108 | every day up to 28 February 2021 gets its calendar month, 1 March 2021 does not, and 2 March does again |
| `DayAxis.CalendarYear` | DGChartsTest/DGChartsTest/Formatters/DayAxisValueFormatter.swift:49-68 | the days before every year from 2016 on, in closed form |
| `DayAxis.LagOf` | DGChartsTest/DGChartsTest/Formatters/DayAxisValueFormatter.swift:100-108 | how many days the loop's months from 2020 on begin late, in closed form: one for every common year since |
| `DayAxis.LastRightDay` | DGChartsTest/DGChartsTest/Formatters/DayAxisValueFormatter.swift:70-108 | 31 January 2061 is the last day whose month and year, counted from January 2016, are the calendar's |
| `DayAxis.RightAgainIn2463` | DGChartsTest/DGChartsTest/Formatters/DayAxisValueFormatter.swift:70-108 | the month returned is wrong for every later day up to 28 February 2463 and right on 1 March 2463, when the loop is a whole year behind |

## Left out

- LRUCaches.LRUCache.Set: values have the key's type, because `insert` force-casts the value to it and stops the program otherwise; the general value type is not modelled.
- LinkedLists.LinkedList.NodeAt: indices out of range, on which the source stops the program, are excluded by a precondition, as in every operation built on it.
- LinkedLists.LinkedList.InsertList: on lists that share a node the source never returns for an index above 0; the method asks for index 0 then, and `SpliceStalls` and `SpliceStallsLater` model the statements up to the search that does not end.
- LinkedLists.LinkedList.AppendList: on lists that share a node the source never returns; the method asks for lists that do not, and `AppendListRounds` models the rounds of the other case.
- Lists whose chain has become endless: of the operations on them only the reading loops and the reversal of a circle are modelled.
- LinkedLists.LinkedList.RemoveForeignNode: the other list is a well-linked one that shares no node with the receiver.
- `LinkedList`'s description, value subscript and array initialisers: one loop or one call over the operations above.
- The lifetime of weakly referenced nodes: all nodes of a list are held by its `next` chain.
- KeywordHash.KeywordCode: the EBCDIC branch, and the assertions that only mark coverage, are not modelled.
- The two dispatch tests run one after the other; a first test that timed out could print during the second. Each test is modelled alone.
- The five-second limit of the timed wait is a nondeterministic choice, taken only while the group has entries.
- The text of numbers, dates and URLs in a JSON value is a given string; Swift's Unicode normalisation of keys is not modelled.
- PersonInfoPB.Equal: Swift compares `name` and `hobbies` up to canonical equivalence of Unicode; the model compares them character by character.
- That different JSON values get different identifiers: they need not, since the parts are joined without separators.
- The bytes of the protobuf wire format: records are given by number, wire type and content. Group fields and recursion limits do not occur in this message.
- `determineDayOfMonth` and the label text of the axis: it counts every earlier month by the last day's year.
- User interface, networking, databases and the demonstrations of third-party libraries.
