# The journal, its readers and its helpers

This project models the log store of the journal: a file is a header and a heap of typed objects at 8-aligned
offsets (data, field, entry, hash table, entry array). It follows the code that writes such files, searches them,
evaluates queries over several of them, checks them offline, maps them, and a few self-contained pieces used
around them: the hash map, the window cache, time spans, the native logging protocol and the lookup3 hash.

* `JournalDef`, `EntryArrays`, `JournalView`: the objects; the entry lists, one item inline and the rest in a chain
  of growing arrays; the invariant `WellBuilt` of a file with its ghost `View` (hash chains, lists, index).
* `JournalSteps`, `JournalLookup`, `JournalLinking`, `JournalEntries`, `JournalRoom`, `JournalFile`, `JournalIndex`: the
  writer, as a class that changes header and objects in place, the room it takes, and what its invariant says about the
  inverted index.
* `JournalVerifySpec`, `JournalVerifyChains`, `JournalVerifyScan`, `JournalVerify`, `JournalVerifyWriter`,
  `JournalDamage`, `JournalCircular`, `JournalUnlisted`: the offline checker, what it accepts, what the writer has to do
  with it, the damage it finds, and files that hang it or get past it.
* `JournalBisect`, `JournalSeek`: bisection with the chain cache, stepping, and seeks, against linear search.
* `JournalMatch`, `JournalQuery`, `JournalMerge`, `JournalAcross`, `JournalUnique`: query trees and their construction,
  reading many files of one source or of several as one journal, enumeration of the values of a field.
* `JournalSamples`, `JournalTurnBack`, `JournalLaterBoot`: files written from empty that show where a search, an append or a check goes wrong.
* `Hashmap`, `MMapCache` (on `Lists` and `Pages`), `TimeSpan`, `NativeProtocol`, `Lookup3`.

Methods follow the loops and updates of the code. Each is tied to a function or predicate that says what it is for;
the properties of those are lemmas. The hash of a payload is a parameter of the writer and its readers.

## Model

| member | source | states |
|---|---|---|
| JournalFile.JournalFile.SetupTables | lib/journal-file.c:490-547 | a new file satisfies the whole invariant and records nothing; it fails only if there may be no room for the two tables |
| JournalFile.JournalFile.SetupDataHashTable | lib/journal-file.c:490-521 | the table is all zero, has at least 2047 buckets and one per 768 bytes of the maximum size at 75% fill |
| JournalFile.JournalFile.Allocate | lib/journal-file.c:271-331 | the arena never shrinks, covers the request on success, grows to a multiple of 8 MiB or exactly to the limit, never beyond it; it fails only if the file would get beyond the maximum size, or beyond the minimum size where space is to be kept free |
| JournalFile.JournalFile.AppendObject | lib/journal-file.c:440-488 | the object lands right behind the tail at a fresh offset above all others, and the arena stays tiled |
| JournalView.TilingIncreases | lib/journal-file.c:440-488 | objects of a tiled arena do not overlap: each ends, aligned, at or before every later one |
| JournalFile.JournalFile.LinkObject | lib/journal-file.c:593-677 | the object becomes the tail of the bucket of its hash, and only that bucket, its old tail and one counter change |
| JournalView.HashChainsAppend | lib/journal-file.c:593-677 | linking at the tail keeps every hash chain complete, acyclic and in its own bucket |
| JournalLookup.FindObjectWithHash | lib/journal-file.c:679-816 | the walk finds an object with this payload exactly if the file has one |
| JournalFile.JournalFile.AppendField | lib/journal-file.c:835-889 | returns the one object of the field name, keeps the invariant, and changes no entry list |
| JournalFile.JournalFile.AppendData | lib/journal-file.c:891-983 | returns a data object with this payload, the only one that may be new; entries and what they contain stay as they are |
| EntryArrays.StoreInLast | lib/journal-file.c:1030-1042 | writing the first free slot of the last array appends exactly that item to the list |
| EntryArrays.StoreInNew | lib/journal-file.c:1044-1078 | a full chain grows by one array of the computed capacity whose first slot holds the new item |
| EntryArrays.CapacityBounds | lib/journal-file.c:1044-1050 | j arrays hold at least 4*3^(j-1) slots, and each further array at most triples what is there |
| EntryArrays.ChainGrowth | lib/journal-file.c:1013-1078 | n items occupy at most max(4, 3n-1) slots, in a number of arrays logarithmic in n |
| JournalFile.JournalFile.LinkEntryIntoArray | lib/journal-file.c:1013-1078 | the list held by the chain gets exactly this item at its end; nothing else in the file changes |
| JournalFile.JournalFile.LinkEntryItem | lib/journal-file.c:1080-1129 | the list of this data object, inline item and chain, gets the entry at its end, and all other lists stay |
| JournalFile.JournalFile.LinkEntry | lib/journal-file.c:1131-1171 | after the last link the whole invariant holds again: main list and every index list contain the entry as often as it contains the data |
| JournalFile.JournalFile.AppendEntryInternal | lib/journal-file.c:1173-1213 | exactly one entry object is added, with the next sequence number, the given times and items |
| JournalFile.NextSeqnum | lib/journal-file.c:414-438 | the least number above both the last one of the file and the external counter |
| JournalFile.JournalFile.AppendEntry | lib/journal-file.c:1239-1284 | the log grows by exactly one entry with these fields and times and a larger number; refused, changing nothing, are exactly an entry before a recorded one of this boot, and one before the last entry of an earlier boot whose time is on record as if of this one; otherwise it fails only if there may be no room for its fields, the entry and one more array for each list it goes on, by the lengths the log gives them; the invariant, old contents and cached positions stay valid, and boots follow one another |
| JournalFile.PostingsOccur | lib/journal-file.c:1080-1129 | the list of a payload is as long as the log has occurrences of it, so that the room an entry takes is known from the log |
| JournalFile.NewArrayNeed | lib/journal-file.c:1044-1078 | the array that a list of n items grows by takes at most the room of max(4, 2n+2) slots |
| JournalFile.JournalFile.RefusedExactly | lib/journal-file.c:1254-1256 | what the guard on the time refuses, said by the entries of the file |
| JournalFile.JournalFile.Reopen | lib/journal-file.c:2366-2523 | opening the file for writing in the same boot or a later one keeps the invariant and the log, and takes the recorded time for one of this boot exactly if the boot in the header is this one |
| JournalEntries.SortMembers | lib/journal-file.c:1229-1237 | the items of an entry are ordered by offset and are the same items, each as often |
| JournalEntries.FieldsOfSorted | lib/journal-file.c:1229-1284 | sorting the items does not change which payloads the entry contains, nor how often |
| JournalEntries.XorOfNeighbours | lib/journal-file.c:1270 | the hash of an entry depends neither on the order of its fields nor on a field that is there twice |
| JournalIndex.IndexIsExact | lib/journal-file.c:1080-1171 | in every file the writer builds, the list of a data object holds each entry as often as the entry contains its payload, and nothing else |
| JournalIndex.IndexIsSorted | lib/journal-file.c:1131-1171 | that list is in file order, and strictly so exactly if no entry contains the payload twice |
| JournalIndex.StoredOnce | lib/journal-file.c:740-983 | a payload is stored in exactly one data object if some entry contains it, and in none otherwise |
| JournalVerifyScan.VerifyObject | src/journalctl/journal-verify.c:103-324 | accepts exactly the objects that are sound by themselves |
| JournalVerifyScan.ScanObjects | src/journalctl/journal-verify.c:817-1080 | the first pass succeeds exactly if every step and the totals are right, and then has collected all data, entry and array offsets |
| JournalVerifyScan.ScanMeaning | src/journalctl/journal-verify.c:817-1080 | those step conditions hold exactly if the objects tile the arena, are sound, are as many as the header says, and entries are in order |
| JournalVerify.ContainsUint64 | src/journalctl/journal-verify.c:338-370 | bisection finds an offset exactly if it was collected |
| JournalVerify.DataObjectInHashTable | src/journalctl/journal-verify.c:616-639 | the object is found exactly if the next pointers lead to it; the walk goes on for ever exactly if they lead in a circle without it |
| JournalVerify.VerifyEntry | src/journalctl/journal-verify.c:641-685 | good exactly if every item names a collected data object with that hash, reached from its bucket; endless exactly if an item hangs after good ones |
| JournalVerify.VerifyEntryArray | src/journalctl/journal-verify.c:687-771 | good exactly if the chain stores, strictly increasing, as many entries as the header says, all good; endless exactly if it gets to an entry that hangs |
| JournalVerifySpec.Pigeonhole | src/journalctl/journal-verify.c:687-771 | a strictly increasing list of entries as long as the list of all entries is that list |
| JournalVerify.EntryPointsToData | src/journalctl/journal-verify.c:372-458 | true exactly if the offset is an entry that contains the data object; the search in the main array never misses it |
| JournalVerify.VerifyData | src/journalctl/journal-verify.c:460-545 | true exactly if the list of the data object names n_entries strictly increasing entries that contain it |
| JournalVerify.VerifyHashTable | src/journalctl/journal-verify.c:547-614 | true exactly if every bucket's chain runs forward through collected data objects of that bucket to the tail on record, all with good lists |
| JournalVerifyChains.StoresCollect | src/journalctl/journal-verify.c:687-771 | a list stored in a forward chain is what the walk of the checker collects |
| JournalVerify.Verify | src/journalctl/journal-verify.c:773-1147 | the file is accepted exactly if it is consistent, and the check never ends exactly if it gets to an item whose hash chain circles without its data object |
| JournalVerifyWriter.WriterBuiltConsistent | src/journalctl/journal-verify.c:773-1147 | a file the writer built is accepted exactly if it has an entry, its last entry is of the boot in the header, and every entry has fields, none empty or twice, and valid times |
| JournalDamage.AcceptedData | src/journalctl/journal-verify.c:120-180 | an accepted data object has a payload, the hash of which is the one on record |
| JournalDamage.AcceptedField | src/journalctl/journal-verify.c:180-198 | an accepted field object has a name |
| JournalDamage.AcceptedEntry | src/journalctl/journal-verify.c:200-248 | an accepted entry has a number, sane times and items |
| JournalDamage.AcceptedTable | src/journalctl/journal-verify.c:250-297 | an accepted hash table has buckets, each with a head exactly if it has a tail |
| JournalDamage.AcceptedArray | src/journalctl/journal-verify.c:299-323 | an accepted entry array has slots, all aligned |
| JournalDamage.AcceptedOrder | src/journalctl/journal-verify.c:817-1080 | in an accepted file numbers rise, and within a boot time does not go back |
| JournalDamage.HeaderDetermined | src/journalctl/journal-verify.c:817-1080 | of the headers for the same objects one is accepted: counts, tables, first and last entry are all determined |
| JournalDamage.AcceptedBucket | src/journalctl/journal-verify.c:547-614 | in an accepted file the next pointers from a bucket lead forward through data objects of that bucket to the tail on record |
| JournalDamage.AcceptedItem | src/journalctl/journal-verify.c:616-685 | every item of an accepted entry names a data object whose payload has that hash and which the bucket of the hash leads to |
| JournalDamage.AcceptedInline | src/journalctl/journal-verify.c:460-545 | the inline item of an accepted data object names an entry that contains it |
| JournalDamage.AcceptedSlots | src/journalctl/journal-verify.c:460-545 | so does each slot in use, and each names a later entry than the one before |
| JournalDamage.AcceptedMain | src/journalctl/journal-verify.c:687-771 | the main array of an accepted file lists its entries, all of them, in order |
| JournalDamage.PayloadDamage | src/journalctl/journal-verify.c:160-163 | a payload replaced by one of another hash is found in every file of the writer |
| JournalDamage.InlineDamage | src/journalctl/journal-verify.c:460-545 | an inline item that names anything but an entry with the data is found |
| JournalDamage.SlotDamage | src/journalctl/journal-verify.c:460-545 | so is a slot in use that does |
| JournalDamage.ItemDamage | src/journalctl/journal-verify.c:616-685 | so is an item with another hash, or off the chain of its hash |
| JournalDamage.TailDamage | src/journalctl/journal-verify.c:547-614 | so is a tail that is not the end of its chain |
| JournalUnlisted.IndexComplete | src/journalctl/journal-verify.c:460-545 | the list of a data object of an accepted file has all entries with it exactly if it counts as many as there are |
| JournalBisect.ChainCache.Put | lib/journal-file.c:1294-1330 | the new position is on record for its chain, unless it is not worth a new item, and positions of other chains are old ones |
| JournalBisect.ChainCache.GetItem | lib/journal-file.c:1332-1390 | item i of the list, whatever valid positions the cache holds, which stay valid |
| JournalBisect.ChainCache.Bisect | lib/journal-file.c:1428-1633 | in a list in any order it finds a turn from items not beyond the needle to items beyond; in a sorted list that is, going down, the first item not left of the needle, and going up the last not right of it, except that it finds none if the chain is full and no item is right; the cache stays valid |
| JournalBisect.SortedExactly | lib/journal-file.c:1428-1633 | every turn for every needle is what a linear search finds exactly if the list is sorted |
| JournalSeek.BisectPlusOne | lib/journal-file.c:1636-1707 | the same for inline item plus chain, with the inline item as the answer in the exception |
| JournalSeek.AnswerUnique | lib/journal-file.c:1428-1707 | a search has one answer, so the cache never changes it |
| JournalSeek.CacheStaysOk | lib/journal-file.c:1294-1330 | searching one chain keeps the cached positions of all chains valid |
| JournalSeek.CacheSurvives | lib/journal-file.c:1239-1330 | entries can be appended while the cache lives on: every cached position stays valid |
| JournalSeek.MoveToEntry | lib/journal-file.c:1709-1806 | the seek in the main list by offset, number, or a time that runs forward finds what a linear search finds, with the exception of the bisection; by any time it finds a turn |
| JournalSeek.MoveToEntryForData | lib/journal-file.c:2045-2204 | the same in the list of a data object |
| JournalSeek.MoveToEntryByOffsetForData | lib/journal-file.c:2045-2069 | the nearest entry of the list, exactly unless going up overlooks the last one |
| JournalSeek.MoveToEntryByMonotonicForData | lib/journal-file.c:2071-2152 | terminates with an entry of the boot that contains the data; if the time of the boot runs forward, with the nearest at or beyond the time, or with none if there is none; going up if both lists have a free slot |
| JournalSeek.BootListSorted | lib/journal-file.c:1827-1865 | the list of a boot is in the order of time if only its entries carry its payload and they are consecutive |
| JournalSeek.NextEntry | lib/journal-file.c:1867-1932 | steps to the neighbour in the main list, or to its first or last entry |
| JournalSeek.NextEntryForData | lib/journal-file.c:1983-2043 | steps along the list of a data object from where an offset is or would be |
| JournalSeek.StepWalks | lib/journal-file.c:1983-2043 | stepping visits the items of a list one after the other exactly if none is on it twice |
| JournalQuery.MatchIsValid | lib/sd-journal.c:130-160 | true exactly for FIELD=value with a well-formed field name |
| JournalQuery.SameField | lib/sd-journal.c:162-176 | true exactly if both matches are for the same field; the assertion behind the loop is never reached |
| JournalQuery.Query.AddMatch | lib/sd-journal.c:228-328 | the tree stands for the calls made so far, this one included; it is refused exactly if malformed, without effect |
| JournalQuery.Query.AddConjunction | lib/sd-journal.c:330-347 | the tree stands for the calls made so far |
| JournalQuery.Query.AddDisjunction | lib/sd-journal.c:349-367 | the tree stands for the calls made so far |
| JournalQuery.TreeMeaning | lib/sd-journal.c:228-367 | an entry satisfies the tree exactly if in every conjunction some disjunction group has, for each of its fields, one of the values asked for |
| JournalMatch.ListMembers | lib/sd-journal.c:598-618 | the list a match is looked up in holds exactly the entries that contain it |
| JournalMatch.LeapStep | lib/sd-journal.c:639-672 | each turn of the leapfrog keeps: all members off the remaining arc hold at the position, and no entry before it satisfies them all |
| JournalMatch.NextForMatch | lib/sd-journal.c:581-679 | terminates with the nearest entry from the offset on that satisfies the formula, or none; going up unless the last entry of a list it uses is overlooked, and for a single match exactly unless so |
| JournalMerge.ComparesBySeqnum | lib/sd-journal.c:437-579 | among copies of one journal both comparisons are by sequence number |
| JournalMerge.ComparisonsAgree | lib/sd-journal.c:437-579 | the two comparisons differ exactly for entries of the same boot, time and content with different monotonic times |
| JournalMerge.ComparesByMonotonic | lib/sd-journal.c:437-579 | entries of one boot from different sources compare by their time within the boot |
| JournalMerge.OrderTransitive | lib/sd-journal.c:437-519 | where wall clock, numbers and monotonic clock agree, the comparison across sources is an order |
| JournalMerge.CycleExact | lib/sd-journal.c:437-519 | two entries are on a circle with some entry of another source and boot exactly if wall clock and content have them the other way round, with something between |
| JournalMerge.CoherentByTime | lib/sd-journal.c:437-519 | answers of any sources whose clocks agree are in no circle, and the pick is the earliest by time |
| JournalMerge.OpenFile.FindLocationForMatch | lib/sd-journal.c:681-786 | an entry that satisfies the tree, the first one from the location on where the search is exact; from a time within a boot, no such entry of the boot is passed over, and without a conjunction it is itself of the boot |
| JournalMerge.OpenFile.FindLocationWithMatches | lib/sd-journal.c:788-822 | the same with or without a query |
| JournalMerge.OpenFile.FoundInBoot | lib/sd-journal.c:681-822 | from a time within a boot whose entries are consecutive, any query finds its first entry of the boot, if there is one |
| JournalMerge.OpenFile.NextWithMatches | lib/sd-journal.c:824-850 | the first wanted entry behind the given one |
| JournalMerge.OpenFile.NextBeyondLocation | lib/sd-journal.c:852-908 | the first wanted entry of the search that is beyond the location; the loop terminates |
| JournalMerge.FileNext | lib/sd-journal.c:852-908 | said by sequence numbers: a file that does not resume from beyond the location finds its wanted entry with the next number |
| JournalMerge.ResumeExact | lib/sd-journal.c:852-908 | the answer of a file is its wanted entry with the next number exactly if the entry it resumes from is not itself beyond the location |
| JournalMerge.Journal.PickNext | lib/sd-journal.c:910-941 | every file's answer is right exactly under that condition; the pick is one of them, none of them comes before it unless the comparison goes round in a circle, and it is the entry with the next number over all files if all are in step |
| JournalMerge.Journal.RealNext | lib/sd-journal.c:910-958 | one step over all files: the same, and the location, the file and its offset move to the pick and nothing else does |
| JournalMerge.Journal.SetMatches | lib/sd-journal.c:77-88 | changing the query puts every file in step again at the same location |
| JournalMerge.Journal.ReadAll | lib/sd-journal.h:107-109 | reading from the head yields every number of a wanted entry of any file exactly once, in increasing order, then ends |
| JournalAcross.FileNextByTime | lib/sd-journal.c:852-908 | said by time, for any sources: a file that does not resume from beyond the location, and that has no entry of another boot before those of the boot searched for, finds its next wanted entry |
| JournalAcross.BootSearchExact | lib/sd-journal.c:681-786 | without a conjunction, a search by a time within a boot of the file is right exactly if no wanted entry beyond the location comes before the first one of the boot |
| JournalAcross.StepByTime | lib/sd-journal.c:910-958 | one step over files of any sources goes to the first wanted entry by time, and the files stay in step |
| JournalAcross.ReadAllByTime | lib/sd-journal.h:107-109 | reading files of any sources whose clocks agree yields each time and content of a wanted entry exactly once, in the order of time, then ends |
| JournalUnique.FieldListMembers | lib/journal-file.c:961-974 | the list of a field holds exactly the data objects of that field |
| JournalUnique.UniqueQuery.NextInList | lib/sd-journal.c:2431-2540 | moves to the next value of the file's list and says whether an earlier file has it |
| JournalUnique.UniqueQuery.SeenBefore | lib/sd-journal.c:2512-2540 | true exactly if an earlier file stores the value |
| JournalUnique.UniqueQuery.EnumerateUnique | lib/sd-journal.c:2424-2546 | a value not returned before, or none when every value of every file has been returned |
| JournalUnique.UniqueQuery.ReadUnique | lib/sd-journal.h:118-119 | the loop returns every value that some file stores for the field exactly once |
| Hashmap.Hashmap.LinkEntry | shared/hashmap.c:244-269 | the entry joins its bucket and the end of the list; both stay well formed |
| Hashmap.Hashmap.UnlinkEntry | shared/hashmap.c:271-297 | the entry leaves both, the order of the others is kept |
| Hashmap.Hashmap.HashScan | shared/hashmap.c:388-398 | finds the entry of a key exactly if there is one |
| Hashmap.Relocate | shared/hashmap.c:421-441 | moving one entry keeps the old table right under the old key and the new one under the new key |
| Hashmap.Hashmap.ResizeBuckets | shared/hashmap.c:400-456 | grows exactly from three quarters full on; all entries, their bindings and their order stay |
| Hashmap.Hashmap.Put | shared/hashmap.c:458-489 | adds a binding at the end, or tells an equal binding from another one and changes nothing |
| Hashmap.Hashmap.Replace | shared/hashmap.c:491-506 | a bound key keeps its place and gets the new value |
| Hashmap.Hashmap.Get | shared/hashmap.c:523-536 | the value bound to the key |
| Hashmap.Hashmap.Remove | shared/hashmap.c:566-583 | takes out exactly this binding and keeps the order of the rest |
| Hashmap.Hashmap.RemoveAndPut | shared/hashmap.c:613-637 | renames a key to a free one, at the end; otherwise changes nothing |
| Hashmap.Hashmap.RemoveAndReplace | shared/hashmap.c:639-665 | renames a key, dropping another binding of the new one |
| Hashmap.Hashmap.StealFirst | shared/hashmap.c:809-822 | removes and returns the oldest binding |
| Hashmap.Hashmap.Iterate | shared/hashmap.c:688-721 | returns the first entry still to come and leaves the others |
| Hashmap.RemoveDuringIteration | shared/hashmap.c:688-721 | removing an entry the iteration does not stand at takes just that one from those to come |
| Hashmap.Hashmap.RemoveWhileIterating | shared/hashmap.c:566-721 | iterating and removing entries just returned visits every binding once, in order, and leaves exactly those not dropped |
| Hashmap.LookupAdded | shared/hashmap.c:458-506 | what put and replace do to the bindings is what they should do to a finite map |
| Hashmap.LookupRemoved | shared/hashmap.c:566-583 | and so is what remove does |
| MMapCache.PlaceWindow | lib/mmap/mmap-cache.c:502-517 | whole pages around the request, at least 8 MiB, with the request in the middle unless the file starts too close |
| MMapCache.ClampWindow | lib/mmap/mmap-cache.c:519-529 | the window ends at the last page of the file at the latest |
| MMapCache.MMapCache.DetachWindow | lib/mmap/mmap-cache.c:195-227 | the window joins the front of the unused list exactly if it had no other user and is not to be kept |
| MMapCache.MMapCache.AttachWindow | lib/mmap/mmap-cache.c:229-261 | the context uses the window, which leaves the unused list; if it was the last one, none is on record |
| MMapCache.MMapCache.UnlinkWindow | lib/mmap/mmap-cache.c:106-148 | the window is gone from its file, from the unused list and from its contexts, and the rest is consistent |
| MMapCache.MMapCache.MakeRoom | lib/mmap/mmap-cache.c:380-388 | gives up the last unused window exactly if one is on record |
| MMapCache.MMapCache.AddWindow | lib/mmap/mmap-cache.c:171-193 | a new window, or the last unused one beyond 64 windows |
| MMapCache.MMapCache.TryContext | lib/mmap/mmap-cache.c:390-428 | serves exactly the requests the context's own window covers; otherwise the context leaves its window |
| MMapCache.MMapCache.FindMmap | lib/mmap/mmap-cache.c:430-477 | serves from some window of the file exactly if one covers the request |
| MMapCache.MMapCache.AddMmap | lib/mmap/mmap-cache.c:479-580 | a request within the file is mapped and served unless the system fails; it is not available exactly if its window starts beyond the file; otherwise the result is what the system answered; a mapped window covers the request exactly if it ends within the last page of the file |
| MMapCache.MMapCache.Get | lib/mmap/mmap-cache.c:582-618 | the window covers the request with the right file and protection; a request within the file succeeds whenever the system has pages, and otherwise fails as the system did; lists, users and counts stay consistent; a hit exactly if some window matches; without memory it fails if no last unused window is on record |
| MMapCache.MMapCache.CloseFd | lib/mmap/mmap-cache.c:620-631 | the file and exactly its windows are gone |
| TimeSpan.FormatTimespan | shared/time-util.c:257-362 | the loop with its in-place division prints exactly the text the round trip is about, or nothing for infinity |
| TimeSpan.LargestFirst | shared/time-util.c:257-362 | units are printed from the largest down, each as often as it fits |
| TimeSpan.OneNumber | shared/time-util.c:257-362 | below a minute and to the microsecond one number is printed, with decimals if need be |
| TimeSpan.ParseSec | shared/time-util.c:594-703 | the loop over numbers, decimals and suffixes computes exactly the reading the round trip is about, errors included |
| TimeSpan.ParseText | shared/time-util.c:594-703 | reading printed pieces adds up their values |
| TimeSpan.SuffixMatch | shared/time-util.c:597-693 | the first-match suffix table reads every printed unit as itself |
| TimeSpan.NumberOfUnits | shared/time-util.c:594-703 | a number with any of the 28 words for a unit, or none, reads as so many microseconds as that word stands for |
| TimeSpan.NegativeNumber | shared/time-util.c:650-654 | a negative number is out of range |
| TimeSpan.NoNumber | shared/time-util.c:640-676 | nothing, or a word without a number, is invalid |
| TimeSpan.RoundTrip | shared/time-util.c:257-703 | a printed span reads back as at most itself, and short by less than max(1, accuracy) for a fine accuracy |
| TimeSpan.AccuracyExact | shared/time-util.c:257-362 | the bound holds for all spans exactly if the accuracy is at most 1, starts with digit 1, or is a second or more |
| NativeProtocol.Sendv | lib/journal-send.c:186-271 | refuses exactly empty lists and malformed fields; otherwise the vectors join to the encoding |
| NativeProtocol.OnTheWire | lib/journal-send.c:213-271 | the bytes of a line and of a value with a newline |
| NativeProtocol.ValidUserField | src/core/journald-native.c:34-67 | true exactly for valid names |
| NativeProtocol.SomeNames | src/core/journald-native.c:34-67 | names and texts that are none |
| NativeProtocol.ProcessNativeMessage | src/core/journald-native.c:147-325 | the loop terminates with what the buffer holds, and dispatches it with the transport unless there is nothing or too much |
| NativeProtocol.LittleEndianBack | src/core/journald-native.c:265-275 | the length read is the length written |
| NativeProtocol.ArrivesExact | src/core/journald-native.c:147-309 | a field the sender takes arrives as just this field, whatever follows, exactly if its binary value is within the limit, or, for a comment, if every line and block behind its first line is skipped |
| NativeProtocol.RoundTrip | src/core/journald-native.c:147-309 | what arrives is exactly the fields with valid names, in order, and the implicit identifier if there was none; for fields that arrive by themselves |
| NativeProtocol.RoundTripExact | lib/journal-send.c:213-271 | for such fields it arrives so exactly if the name of the program has no newline or an identifier was given |
| NativeProtocol.Delivered | src/core/journald-native.c:311-325 | one entry is dispatched with the valid fields in order, the identifier and the transport, unless it is beyond the limit |
| Lookup3.MixReversible | lib/hash/lookup3.h:121-129 | mixing is a bijection on triples of words |
| Lookup3.MixWords | lib/hash/lookup3.h:121-129 | the assignments in sequence compute that bijection |
| Lookup3.FinishReversible | lib/hash/lookup3.h:156-165 | the final mixing is a bijection on triples of words |
| Lookup3.FinalMix | lib/hash/lookup3.h:156-165 | the assignments in sequence compute the final mixing |
| Lookup3.HashByWord | lib/hash/hashlittle2.c:38-102 | the branch for aligned keys equals the common definition, whatever bytes follow the key |
| Lookup3.HashByHalf | lib/hash/hashlittle2.c:104-149 | so does the branch for even addresses |
| Lookup3.HashByByte | lib/hash/hashlittle2.c:151-195 | so does the branch for any address |
| Lookup3.HashLittle2 | lib/hash/hashlittle2.c:24-196 | the pair depends neither on alignment nor on the bytes behind the key |
| Lookup3.HashWord2 | lib/hash/hashword2.c:22-57 | hashing words gives the pair of their bytes |
| Lookup3.EmptyKeys | lib/hash/hashlittle2.c:205-226 | the values published for the empty key |
| Lookup3.FourScore | lib/hash/hashlittle2.c:227-249 | the values published for a key of 30 bytes under three pairs of seeds |

## Findings

What the proofs found false of the code: a run or input that shows it, and the condition under which the code is right.

| what fails | where | shown by | right exactly if |
|---|---|---|---|
| Searching up in a full chain when no item is right of the needle finds nothing | lib/journal-file.c:1585 | JournalSamples.UpwardMiss, JournalSamples.LookBack: four entries | JournalBisect.ChainCache.Bisect: the chain has a free slot or an item right of the needle |
| So does a query read backwards | lib/sd-journal.c:598-618 | JournalSamples.UpwardMissForMatch: five entries | JournalMatch.NextForMatch for one match: the last entry of its list is not overlooked; for a tree this suffices for each match in it |
| An entry with a field twice is linked twice into its list; stepping does not get past it, and the checker rejects the file | lib/journal-file.c:1164, lib/journal-file.c:1983-2043 | JournalSamples.RepeatedField | JournalIndex.IndexIsSorted, JournalSeek.StepWalks, JournalVerifyWriter.WriterBuiltConsistent: no entry has a field twice |
| Reading on after turning round misses entries | lib/sd-journal.c:862-868 | JournalTurnBack.MissedEntry: two files, entries 1, 3 and 2 | JournalMerge.ResumeExact: the entry a file resumes from is not beyond the location |
| The time on record is taken for one of this boot when it is that of the last entry of an earlier one, and the first entry of this boot is refused | lib/journal-file.c:185-186, lib/journal-file.c:1254 | JournalSamples.StaleTime: one entry, two openings in a later boot | JournalFile.JournalFile.AppendEntry: the last entry is of this boot, or the file was not opened before in this boot, or the time is not before that of the last entry |
| A file opened for writing in a later boot is rejected by the checker until an entry is appended | lib/journal-file.c:188, src/journalctl/journal-verify.c:773-1147 | JournalSamples.OpenedLater: one entry, one opening | JournalVerifyWriter.WriterBuiltConsistent: the last entry is of the boot in the header |
| The checker can follow a hash chain for ever | src/journalctl/journal-verify.c:625 | JournalCircular.SelfLinked: a file of six objects | JournalVerify.Verify: no item reached hangs |
| The checker accepts a file whose index leaves out an entry | src/journalctl/journal-verify.c:460-545 | JournalUnlisted.NotListed: two entries with one payload | JournalUnlisted.IndexComplete: the data object counts as many entries as contain it |
| A query over files of two sources that have a boot in common can miss entries of a later boot | lib/sd-journal.c:714-717, lib/journal-file.c:2092-2101 | JournalLaterBoot.LaterBootMissed: two files, four entries | JournalAcross.BootSearchExact: no wanted entry of another boot comes before those of the boot searched for |
| The comparison of entries is not transitive across sources | lib/sd-journal.c:437-519 | JournalMerge.OrderCycle | JournalMerge.CycleExact for two entries and some third: wall clock and content do not have them the other way round, or leave no room between; JournalMerge.OrderTransitive for three given ones |
| The last unused window is forgotten, and no memory can be made though windows are unused | lib/mmap/mmap-cache.c:247-250 | MMapCache.ForgetLast: one context, four requests | MMapCache.MMapCache.MakeRoom: a last window is on record |
| A time span printed with a coarse accuracy loses as much as the accuracy or more | shared/time-util.c:257-362 | TimeSpan.LossWitness, TimeSpan.CoarseLoses | TimeSpan.AccuracyExact |
| A newline in the name of the program breaks the implicit identifier | lib/journal-send.c:260-271 | NativeProtocol.ProgramNewline | NativeProtocol.RoundTripExact |
| A value with a newline beyond the size limit ends the message: it and all fields behind it are lost | src/core/journald-native.c:274-280 | NativeProtocol.LongValue | NativeProtocol.ArrivesExact: the value is within the limit |
| A comment whose value has a newline is skipped up to its first newline only | src/core/journald-native.c:179-185 | NativeProtocol.CommentBlock; NativeProtocol.HarmlessComment is skipped | NativeProtocol.ArrivesExact: behind the first line there are only comments, lines and complete blocks without a valid name |

## Left out

- Compression: payloads are stored as they are, as with compression turned off.
- Partially failed appends: a size limit may stop an append half way; what the file looks like then is not stated.
- Integer width in the journal: offsets and counters are unbounded natural numbers; wrap-around of 64-bit values is not modelled. Lengths in the native protocol, 32-bit hash words and time values do wrap.
- Object pointers: objects are taken by offset, so the invalidation of pointers when a window is unmapped is not modelled; the page size is 4096.
- Sorting the items of an entry: the library sort is an insertion into a sorted list.
- Error returns of object access: a bad reference makes a search fail; for files of the writer the searches are shown not to need them.
- JournalSeek.MoveToEntryByMonotonicForData: going up it promises the nearest entry only if both lists have a free slot, because a miss of one of its bisections changes where the other starts.
- JournalMerge.OpenFile.FindLocationForMatch: from a time within a boot the answer to a query with a conjunction may lie behind the boot; that it is in the boot if the boot has one is stated for consecutive entries of a boot (JournalMerge.OpenFile.FoundInBoot), which the writer keeps.
- JournalSeek.MoveToEntry: by a time that ran back it promises some turn, which need not be the nearest entry; which one it is depends on the sizes of the arrays and the cache.
- JournalMerge.Journal.ReadAll: stated for files of one source whose equal numbers are copies; for other sources there is JournalAcross.ReadAllByTime, for clocks that agree, because otherwise the comparison is not an order.
- JournalMatch.NextForMatch: for a tree of several matches, not being overlooked suffices but is not necessary, since another match may find the entry.
- Finding, adding and removing files, cursors, skipping, seeks to the tail or to a time by the caller, change notification, vacuuming and rotation.
- The count of seen hash tables in the checker is modelled as it is compared, without its progress display and temporary files.
- Hashmap: keys are compared by equality, so key pointers and comparison functions are not modelled, nor are memory pools, null maps, `hashmap_update`, `hashmap_clear`, merging and moving, and backward iteration; the new hash key of a resize is arbitrary.
- The reference count of the window cache and its destruction; what the system answers to a request for pages is a parameter.
- TimeSpan: the truncation of the output to a small buffer and `parse_nsec` are not modelled.
- NativeProtocol.ProcessNativeMessage: priority, identifier, message text, metadata and the socket are not modelled; an empty line closes an entry, which the sender never sends.
- The big-endian and checked-memory variants of the hash.
