# The data structures of trn, modelled and proved

trn is a threaded newsreader. This project models the algorithms in it that keep data structures in shape, and proves
what they are meant to guarantee:

- **The article forest** (`Thread*.dfy`). Articles hang below the articles that their References lines name
  (section 2.2.5 of RFC 1036). Ids that no article has been seen for get fakes, a real article later takes the place of
  its fake, threads that turn out to be one are merged, and loops made by wrong headers are cut. `ThreadSpec` gives the
  forest as a value and what each operation does to it. `ThreadHeap` and the modules after it hold the linked articles
  and subjects (`parent`, `child1`, `sibling`, `thread`, `thread_link`) and the code that relinks them, each method
  proved to do to the objects what `ThreadSpec` says. The results about runs are proved of the value, so they hold of
  the objects.
- **The lists of read articles in a newsrc file** (`Decimals`, `ReadRanges`, `RangeText`, `NewsrcGroup`, `NewsrcRuns`).
  The text is modelled character by character; what it means is a set of numbers.
- **The flags of a group's articles and the unread counts** (`GroupArticles`, `GroupCounts`, `ReadBits`, `BitsLaws`).
- **The edit distance in a circular buffer, and the search for the closest group name** (`EditDistance`, `EditBuffer`,
  `CloseMatch`).
- **Storage**: the chained hash table (`HashTables`), the fragment allocator (`MemPools`), the sparse block list
  (`SparseLists`), the order of the newsgroups (`GroupOrder`), the block cache over a file (`BackPage`).
- **Base64 decoding in place** (`Base64`), against the encoding of section 6.8 of RFC 2045.

`Paths` holds what is needed about climbing parent links; `Options` an option type. `dafny verify dfyconfig.toml`
checks the whole project.

An article is identified by its message id and a subject by its text. A fake is an article that get_article made for an
id (`AF_FAKE` and `AF_TMPMEM` are set together). One step of the forest (`ThreadSpec.Step`) is valid_article followed by
thread_article for one header, an `Event`. `WellFormed` is what holds between steps: parents are acyclic; no article is
in two lists of siblings or twice in one; every article that has a subject is in the list that its parent, or without
one its subject's thread, names, and every other one is blank; parent and child are in one thread; exactly the real
articles are threaded.

## Findings

Where the code does not meet what one would expect of it, the code is modelled as it is, a lemma gives an input, and
another says exactly when the expectation is met.

- A References line that names an unseen id twice, on an article without a date, makes that fake its own ancestor: the
  check for repeated ids at rt-process.cpp:277 recognizes the fakes of the line by their date. The program can hang in
  the loop at rt-process.cpp:329-330 then: in `ThreadRepeats.RepeatExample`, the smallest such line, the fake it climbs
  from is its own parent. `ThreadRepeats.StepWellFormedIff` says that a step keeps the forest well formed exactly when
  the article has a date or its line repeats no new id. By `ThreadDated.DatedFromNothing` dated headers need no other
  condition.
- A root list can end up out of date order: when the article takes the place of a fake root, its own date is in that
  root list, still at the fake's place, while the roots of another thread are merged in (rt-process.cpp:217-226).
  `ThreadDisorder.DisturbExample` reaches it from nothing with four dated headers. `ThreadDates.StepOrder` gives the
  exact condition. Lists of children are always in order.
- rc_to_bits marks the first article that may be unread as read when the list has a single number below it
  (bits.cpp:93, 110-111). `BitsLaws.StrayExample` has a list, `BitsLaws.LoadedExactIff` the exact condition, and
  `BitsLaws.TrimmedLoadsExactly` shows that a list trimmed by checkexpired is never affected.
- addartnum takes a line that consists of the empty run `1-0` for one on which nothing was parsed (rcln.cpp:154) and
  puts the digits of the number right behind it: adding 5 gives `1-05`. `NewsrcRuns.HollowExample` and
  `ReadRanges.InsertDenotes`.
- addartnum does not count the articles that a number beyond the highest one makes unread when nothing was unread before
  (rcln.cpp:108-112). `NewsrcRuns.CountExample` has a group of five articles, all read, to which 7 is added;
  `NewsrcRuns.CountStaysRight` says exactly when the count stays right.
- edit_distn computes its radix before it swaps its operands (edit_dist.cpp:93, 108-110). `EditBuffer.WindowIsRight`:
  the cell above is found where it is looked for if and only if the operands are not swapped. `EditBuffer.EditDistN`
  gives what comes of it when the static buffer is clear, `EditBuffer.SwapBreaks` when that is certain to be wrong, and
  `EditBuffer.SwapExample` two such strings.
- cleanup_newsrc does not keep the order of the bogus groups: those it moves come after those that were last already,
  in reverse (rcstuff.cpp:1198-1203). `GroupOrder.CleanupExample` has three groups; by `GroupOrder.CleanupKeepsOrder`
  the order is kept if and only if just one group is bogus.
- existing_listnum does not round down from above the last block: it answers one below the lowest number
  (list.cpp:156-160). `SparseLists.SparseList.PastExample` has a list of one block,
  `SparseLists.SparseList.RoundsDownIff` the exact condition.

One thing that looks like a failure is none. The sibling link of a forgotten fake is not cleared
(rt-process.cpp:231-238) and may lead to an object that has been freed later, but it is never followed:
`ThreadHeap.Threads.SiblingId` reads such a link as one of the article to itself, and every method is proved with that
reading.

## Model

| member | source | states |
|---|---|---|
| ThreadRepeats.StepWellFormedIff | rt-process.cpp:65-364 | From a well formed forest, one valid_article and thread_article ends in a well formed forest if and only if the article has a date or its References line repeats no id that it makes a fake for; the condition is on the forest before the step. |
| ThreadForest.StepKeepsWellFormed | rt-process.cpp:199-364 | For a header that can be traced, even if its References line names a descendant of the article, the step leaves parents acyclic and every threaded article in exactly the one list its parent or subject names. |
| ThreadForest.RunKeepsWellFormed | rt-process.cpp:65-364 | The same over every run of headers each of which can be traced. |
| ThreadForest.EnteredExactly | rt-process.cpp:216-241 | Before the references are walked, exactly the fakes above a replaced fake that have no other child down to it know nothing any more; every other article keeps its data and its parent. |
| ThreadDated.DatedFromNothing | rt-process.cpp:65-364 | Any run of dated headers, from no articles at all, ends well formed, with no other hypothesis. |
| ThreadDated.DatedStep | rt-process.cpp:272-297 | A dated header can always be traced, and leaves every real article dated. |
| ThreadRepeats.RepeatExample | rt-process.cpp:272-297 | One undated header whose line repeats a new id breaks the forest, and makes the fake its own parent. |
| ThreadParents.NothingLost | rt-process.cpp:216-241 | Of the other articles with a subject, exactly the fakes that were above a replaced fake for its sake alone are forgotten; all the rest keep their data, and their parent too, except for the one child of the article that the known article met by the line is at or below, which becomes a root. |
| ThreadParents.FinishParent | rt-process.cpp:323-341 | Settling takes the parent of an article just when that parent is the article being threaded and the climb from the known article meets it. |
| ThreadNaming.StepData | rt-process.cpp:65-364 | After a step the article is real and has the date and subject of its header, or its own when threaded before; every other article with a subject that the step does not forget keeps date, subject and kind; every other id of the line is that of an unthreaded fake with the date and subject of the article; of all others nothing is known. |
| ThreadNaming.NewFakes | rt-process.cpp:322-324 | Every id of the line that names no article with a subject, or one that the step forgets, is afterwards that of an unthreaded fake with the subject of the article and its date. |
| ThreadNaming.StepThreads | rt-process.cpp:216-319 | Two subjects are in one thread after a step if and only if they were before, or each was in one with the subject of the article, of the fake it replaces, or of the known article that its line leads to. |
| ThreadOutcome.FollowsReferences | rt-process.cpp:246-300 | Climbing from the article one meets the ids of its line from the right, each new one once, up to the first known article that the step does not forget; with no such id it keeps its parent when threaded before and has none otherwise. |
| ThreadOutcome.OneThread | rt-process.cpp:309-325 | All articles that the line goes through are in one thread. |
| ThreadOutcome.RejectedChangesNothing | rt-process.cpp:160-162 | A second article with the id of a real one changes no article. |
| ThreadOrder.MergeSorts | rt-process.cpp:537-543 | A merged root list holds just the roots of both threads, and is in date order if and only if the list that the other was merged into was. |
| ThreadOrder.InsertAllAround | rt-process.cpp:537-543 | Roots merged into a list in which one article is out of place leave it, without that article, in order if and only if none of them is dated between one behind that article and the article. |
| ThreadOrder.InsertPlace | rt-process.cpp:466-484 | An article goes into a list behind those dated no later than it, up to the first that is dated later; the others keep their order. |
| ThreadDates.StepOrder | rt-process.cpp:216-341 | A step keeps every list of siblings in date order if and only if it does not merge a thread into one whose replaced fake root is out of place with a root in between, or the References line leads to a third thread, which takes the roots in. |
| ThreadDates.RunOrder | rt-process.cpp:216-341 | A run of steps that do not disturb a root list for good keeps every list in date order. |
| ThreadDates.RunKidsOrder | rt-process.cpp:457-473 | In every run the children of every article are in date order. |
| ThreadDisorder.DisturbExample | rt-process.cpp:217-226 | Four dated headers after which a root list is not in date order. |
| ThreadObjects.ReadHeaders | rt-ov.cpp:226-262 | On the linked objects, a run of headers ends in articles and subjects that represent the forest of the same run of steps. |
| ThreadObjects.ThreadedReached | rt-process.cpp:425-485 | Every threaded article is reached by sibling links from the first child of its parent or, without a parent, from the `thread` pointer of its subject. |
| ThreadObjects.NeverAboveItself | rt-process.cpp:327-341 | No article object is above itself by any number of parent links. |
| ThreadObjects.CircleAgrees | rt-process.cpp:493-503 | Following thread_link from a subject stays in its thread, comes to every subject of the thread, and all of them point at the same first root. |
| ThreadStep.ReadHeader | rt-ov.cpp:415-419 | Subject, article object, valid_article and thread_article together are one step of the forest. |
| ThreadStep.Receive | rt-process.cpp:65-364 | valid_article and then thread_article for an article object that is in the table or comes new are one step of the forest. |
| ThreadStep.ValidArticle | rt-process.cpp:65-163 | An article is turned down just when a real one has its id; otherwise it is the article of its id, with the data of its header, and what is returned is the subject its fake had. |
| ThreadStep.ThreadArticle | rt-process.cpp:199-364 | The object code of thread_article does what the forest function of that name says; what that comes to is in ThreadNaming.StepData (data), ThreadOutcome.FollowsReferences and ThreadParents.NothingLost (parents), ThreadNaming.StepThreads (threads) and ThreadDates.StepOrder (order). |
| ThreadReplace.TakePlace | rt-process.cpp:96-158 | A new object takes over the pointers of the fake, every pointer to the fake that is in use is led to it, and the objects then represent the old forest with only the data of that article changed. |
| ThreadReplace.LeadTo | rt-process.cpp:112-149 | Exactly the first-child, sibling and thread pointers that led to the fake lead to the new object. |
| ThreadHang.GetArticle | rt-process.cpp:168-194 | The article of an id is found, or a blank fake is made, and nothing else changes. |
| ThreadHang.WalkReferences | rt-process.cpp:246-303 | The loop over the line ends in the state and with the last article that the recursive walk says. |
| ThreadEnter.Detach | rt-process.cpp:216-241 | Threads joined, the fake's place left and the fakes that were there for it alone forgotten, as the forest function says. |
| ThreadEnter.FindStopper | rt-process.cpp:220-225 | The climb stops at the first article that is no fake or has more than one child. |
| ThreadRooting.Settle | rt-process.cpp:306-341 | The chain put into a thread, its fakes named and a loop cut, as the forest function says; whose subject and thread they get is in ThreadNaming.NewFakes and ThreadNaming.StepThreads. |
| ThreadRooting.NameFakes | rt-process.cpp:322-324 | The articles from the first upwards that have no subject get the given one, and the climb stops at the first that has one. |
| ThreadRooting.FindLoop | rt-process.cpp:326-331 | The climb terminates and finds the child of the article that it meets, if any. |
| ThreadHeap.Threads.LinkChild | rt-process.cpp:457-485 | The article is put in date order, behind those of its date, into the list that its parent or its subject names. |
| ThreadHeap.Threads.UnlinkChild | rt-process.cpp:425-452 | The article is taken out of the list that its parent or its subject names. |
| ThreadJoin.MergeThreads | rt-process.cpp:489-543 | The circles of the two threads become one, all its subjects point at the first root, and the roots of the second are linked into the list of the first one by one. |
| ThreadSubjects.FindSubject | cache.cpp:447-468 | The subject of a text is found, or made with a circle of its own and no roots. |
| ReadRanges.InsertDenotes | rcln.cpp:119-191 | The list after adding a number that is not in it is in order and stands for the old set and that number, if and only if it was not the empty run alone (or the number is 1). |
| ReadRanges.InsertProper | rcln.cpp:119-191 | Adding a number leaves no run of a single number behind, except one that begins the line with 1. |
| ReadRanges.ExpireDenotes | rcln.cpp:416-491 | The list after checkexpired is in order and stands for the old set and every number below the first article. |
| RangeText.LineExample | rcln.cpp:119-191 | How a run and a single number are written, without and with blanks. |
| NewsrcGroup.NgData.AddArtNum | rcln.cpp:65-195 | The highest number becomes the larger of itself and the number; a positive count grows by as much and is one less for a number not in the list, any other count stays; the list stands for the old set and the number, unless the line is the empty run alone. Nothing changes for number 0, an unlisted or a bogus group. The text is edited in place, over every combination of neighbours, and reads as that list; blanks may stand after commas, and then the number is not joined with a single number before it. |
| NewsrcGroup.NgData.CheckExpired | rcln.cpp:416-499 | The edit of the text writes the list; it stands for the old set and everything below the first article, and the file is marked changed when the text is. |
| NewsrcGroup.NgData.WasReadGroup | rcln.cpp:503-558 | The scan of the text answers whether the number is in the list and not above the highest; number 0 and every number of a bogus group are read, those of a group without numbers are not. |
| NewsrcRuns.ReadExactlyWhenMarked | rcln.cpp:503-558 | After any sequence of addartnum and checkexpired calls, a number up to the highest is read just when it was in the list at first, was added, or has expired. |
| NewsrcRuns.CountStaysRight | rcln.cpp:108-112 | A count of unread articles that is right stays right under addartnum if and only if something was unread or the number is at most one beyond the highest. |
| NewsrcRuns.CountExample | rcln.cpp:108-112 | With all five articles of a group read, adding 7 leaves the count of unread articles wrong. |
| NewsrcRuns.HollowExample | rcln.cpp:150-162 | On the line `1-0` adding 5 marks 3 as read. |
| ReadBits.Newsgroup.RcToBits | bits.cpp:46-154 | The flags after reading the line, and the count of unread articles that exist. |
| ReadBits.Newsgroup.BitsToRc | bits.cpp:172-250 | The line printed from the flags: a run from 1, then runs in order, none adjacent, which stand for just the numbers that are not unread; and the file is marked changed. |
| ReadBits.Newsgroup.SetFirstart | bits.cpp:156-168 | Whether the line begins with a run from 1, and the first article that may be unread: one beyond that run, but not below the first there is. |
| BitsLaws.LoadedExactIff | bits.cpp:87-143 | After rc_to_bits each existing article is unread just when it is not in the list, if and only if the first article that may be unread is not an existing one outside the list with a single number below it. |
| BitsLaws.TrimmedLoadsExactly | bits.cpp:46-154 | With a list trimmed by checkexpired rc_to_bits is exact. |
| BitsLaws.StrayExample | bits.cpp:93-111 | The list 3 in a group that begins at 10 makes article 10 read. |
| BitsLaws.RoundTrip | bits.cpp:46-250 | Printing the flags and reading the line back restores every article's flag and the count, whatever the flags were in between. |
| BitsLaws.LeaveAndReturn | bits.cpp:46-250 | The round trip on the group itself, through the text of the line. |
| GroupCounts.RunConsistent | bits.cpp:377-496 | Over any sequence of marks the unread count is the number of unread articles, the selected count the number of selected unread ones, and no unread article is below the first that may be. |
| GroupCounts.RunCountIsPrinted | bits.cpp:182-205 | After any such sequence the count is the one that printing would find. |
| ReadBits.Newsgroup.OneMore | bits.cpp:377-395 | An article that was read becomes unread and not deleted, selected as its subject says; the counts grow by one each, its subject is to be visited unless only selected ones are, and the first unread article is lowered to it. Nothing changes for one that was unread. |
| ReadBits.Newsgroup.OneLess | bits.cpp:399-411 | The article is read; one that was unread is not selected any more, and counts that it was in are lowered by one. No other article changes. |
| ReadBits.Newsgroup.OneMissing | bits.cpp:420-426 | The article does not exist, is not unread, and is cached and threaded without reply mark or later return; the counts that it was in are lowered by one. No other article changes. |
| ReadBits.Newsgroup.MarkAsRead | bits.cpp:467-475 | As oneless, and an article with crossposts is remembered for them once. |
| ReadBits.Newsgroup.CheckFirst | bits.cpp:490-496 | The first article that may be unread is lowered to the number, but not below the first there is, and never raised. |
| EditDistance.DistanceIsLeast | edit_dist.cpp:135-146 | The recurrence is the least cost of insertions, deletions, changes and swaps of neighbours that make one string of the other, where what edits make of a string is defined without the recurrence. |
| EditDistance.LengthGap | edit_dist.cpp:135-146 | The distance is at least the difference in length. |
| EditBuffer.EditDistN | edit_dist.cpp:60-253 | Unless the operands are swapped, a distance up to the bound is returned exactly, and for one above it a number above the bound, which is the distance itself when the exit was not taken. With swapped operands and a clear static buffer the number is below twice the length of the shorter one. |
| EditBuffer.WindowIsRight | edit_dist.cpp:93-161 | With the radix and the operands in use, the value of the row above is where it is looked for if and only if the operands were not swapped. |
| EditBuffer.WindowFits | edit_dist.cpp:148-161 | Among all radices that one is twice the length of the first operand in use and three. |
| EditBuffer.SwapBreaks | edit_dist.cpp:93-118 | Such a number is not the distance when the longer operand is three times as long, and breaks the promise to the caller when the shorter one has four characters at most. |
| EditBuffer.SwapExample | edit_dist.cpp:108-110 | 499 characters against one other. |
| EditBuffer.ExitIsExact | edit_dist.cpp:243-249 | When no value of a row but its first column is up to the bound, neither is the distance. |
| CloseMatch.PrefilterChangesNothing | datasrc.cpp:1013-1031 | When some name is near enough, looking only at names of nearly the same length finds the same names. |
| CloseMatch.FindCloseMatch | datasrc.cpp:963-1049 | The names found, at most nine, each once, are those of the given names that differ in length by at most 5, are at distance at most 7, and are nearest among such; all of those when fewer than nine are found, and none just when there is none. One alone is taken. |
| CloseMatch.TiesAreThose | datasrc.cpp:1033-1047 | The names kept are candidates at the least distance, each once, and all of them unless the list is full. |
| CloseMatch.LeastIsLeast | datasrc.cpp:1026-1032 | The best match is the least distance of a candidate, or none when there is no candidate. |
| HashTables.HashTable.HashFind | hash.cpp:195-211 | The slot found is that of the key, or the end of its chain. |
| HashTables.HashTable.HashStore | hash.cpp:109-120 | Storing changes the contents at the key and nowhere else. |
| HashTables.HashTable.HashFetch | hash.cpp:138-149 | Fetching gives what is stored under the key, and remembers the slot. |
| HashTables.HashTable.HashStoreLast | hash.cpp:151-161 | Storing at the remembered slot is storing under the key fetched last. |
| HashTables.HashTable.HashDelete | hash.cpp:122-132 | Deleting removes the key and nothing else. |
| HashTables.HashTable.HashWalk | hash.cpp:166-188 | A walk visits each entry once; those that the callback does not reject stay, in the same buckets and order, with the data that it left in them. |
| MemPools.CarveSound | mempool.cpp:94-146 | A block cut off the current fragment overlaps no live block, and fragments and chains stay partitioned. |
| MemPools.Allocator.SaveStr | mempool.cpp:94-123 | A new live block with the text and its null, and all others as they were; none just when the text is too long or no fragment is left. It is cut off the current fragment where that has room, with chains and free list as they were, and otherwise begins the first free fragment. |
| MemPools.Allocator.Malloc | mempool.cpp:126-146 | A new live block of the size, and all others as they were; none just when it is too large or no fragment is left. A fragment is taken from the free list just when the current one has no room. |
| MemPools.Allocator.Free | mempool.cpp:149-158 | All fragments of the pool are free again and the blocks of the other pools are as they were. |
| SparseLists.SparseList.ListNum2ListItem | list.cpp:45-85 | The slot of a number, in a new block only when it had none; blocks stay in order, aligned and apart, and its block is the one used last. |
| SparseLists.SparseList.SlotsDistinct | list.cpp:45-85 | Different numbers have different slots, and a number one slot. |
| SparseLists.SparseList.ExistingListNum | list.cpp:127-161 | A number is rounded to the nearest allocated one in each direction, or to the value for none, wherever the last look ended; downwards only if something above it is allocated. |
| SparseLists.SparseList.RoundsDownIff | list.cpp:127-161 | Rounding down finds the nearest number if and only if none is asked for above the last block. |
| SparseLists.SparseList.PastExample | list.cpp:156-160 | With items 1 to 20 allocated, 21 is rounded down to 0. |
| SparseLists.SparseList.NextListItem | list.cpp:166-184 | The next allocated item, or none when there is none. |
| SparseLists.SparseList.WalkList | list.cpp:110-121 | The callback stops the walk at the first allocated item it accepts. |
| GroupOrder.Newsgroups.Relocate | rcstuff.cpp:982-1118 | The group is taken out and put back at the place given, with both link directions, both ends and every number right. |
| GroupOrder.RelocatedAt | rcstuff.cpp:1095-1116 | The group is at the place given, or last, and the others are in their order before and behind it. |
| GroupOrder.Newsgroups.Cleanup | rcstuff.cpp:1173-1203 | The groups that are not bogus come first in their old order, then the bogus ones, and numbers follow the order; nothing moves when too many are bogus. |
| GroupOrder.CleanupKeepsOrder | rcstuff.cpp:1181-1203 | When groups are moved, the bogus ones keep their order if and only if there is just one. |
| GroupOrder.CleanupExample | rcstuff.cpp:1198-1203 | Two bogus groups before one that is not change places. |
| GroupOrder.EndCleanup | rcstuff.cpp:1181-1203 | The list that the moves amount to. |
| BackPage.VirtualArray.Write | backpage.cpp:68-99 | The value is the last one written at its index, and no other index is affected. |
| BackPage.VirtualArray.Read | backpage.cpp:35-64 | The last value written at the index, wherever its block is. |
| Base64.DecodesEncoding | mime.cpp:911-961 | Any bytes, encoded and with characters outside the alphabet put in anywhere, decode to the same bytes; the alphabet and the encoding are defined apart from the decoder and its table. |
| Base64.IndexIs | mime.cpp:911-929 | The table holds for each of the 256 characters its place in the alphabet, and the value for none exactly when it is not there. |
| Base64.SixesBits | mime.cpp:931-961 | Encoding takes the bits of one to three bytes six at a time. |
| Base64.BytesBits | mime.cpp:940-958 | Of any number of values, each group of four makes the three bytes of its bits at their place, two or three values at the end one or two bytes, and a single value none. |
| Base64.EndsText | mime.cpp:935-955 | The first null or pad ends the text. |
| Base64.DecodeString | mime.cpp:931-961 | The bytes are written as they decode, a null after them, also when source and destination are one buffer, because the writer never passes the reader. |
| Base64.DecodeEncoded | mime.cpp:931-961 | Encoded bytes decoded where they stand are the bytes. |

## Left out

- Reading the text of a References line (valid_message_id, fix_msgid, commas, ids that end in a dot): the line is a
  sequence of ids.
- Automatic selection and kill flags (`autofl`, chain_autofl, perform_auto_flags, the kill file's hash entries): they do
  not touch the forest.
- ThreadJoin.MergeThreads: the move of subjects next to each other in the list of all subjects when threads are
  selected (rt-process.cpp:505-535).
- ThreadSubjects.FindSubject: the place of a new subject in that list, and the number of subjects.
- Joining of threads by similar subjects.
- ThreadOutcome.RejectedChangesNothing: what uncache_article does to the duplicate itself, which is in no thread.
- cache_article at the end of thread_article.
- Changing the subject of an article that has one already (cache.cpp:440-446).
- set_toread (rcln.cpp:327-412): `abs1st` is taken to be set, as it is after the first call.
- NewsrcGroup.NgData.AddArtNum: the group is found and is of the same data source; between two items stands nothing but
  a comma and any number of blanks; integers are unbounded.
- ReadBits.Newsgroup.RcToBits: the article list is allocated from the first to the last article; flags other than those
  the counts depend on are left out.
- ReadBits.Newsgroup.OneMissing: a missing article that is in no thread keeps its other links.
- EditBuffer.EditDistN: what swapped operands give when the static buffer is not clear, which depends on what it was
  used for last; the costs that can be set when the exit is compiled out.
- CloseMatch.FindCloseMatch: the prompt when several names are left; group names of more than 498 characters that are
  longer than a candidate, for which the operands would be swapped; names with the same text in two sources.
- Prompts in relocate_newsgroup and cleanup_newsrc.
- HashTables.HashTable.HashWalk: what a callback does besides, and callbacks that leave data which does not belong to
  the entry's key any more; entries are numbers in one table's memory, and each table has its own list of reusable
  entries.
- SparseLists.SparseList.ListNum2ListItem: lists that are not sparse, whose blocks begin at the first number asked for;
  the bytes of the items.
- BackPage.VirtualArray.Read: indices that were never written, for which stale data may be returned.
- Running out of memory, the growth of buffers, and integer widths.
- The terminal, the pager, the selector, NNTP, and all reading and writing of files.
