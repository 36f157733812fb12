# Verification of the BIUS data paths

BIUS lets a user-space process serve a Linux block device: a kernel module queues block
requests, a library thread reads them from a character device, serves them from a backend and
writes a reply. This project models the three parts of the system that carry state, as Dafny
classes and state machines, and proves what they are for.

1. **Zero-copy data mapping** (`kernel/data_mapping.c`, used by `library/libbius.c`). A request's
   scattered, misaligned segments become a window of user pages: whole pages are mapped, partial
   ones go through bounce pages, and a zero-terminated list describes the window. Proved: what the
   user reads through the window is the payload of the bio, what it stores there is delivered to
   the segments and nowhere else, and every request leaves the window as it found it.
   `Memory`, `Layout`, `Window`, `ZeroCopy`, `Replay`, `Accounting`, `DataMapping` (class
   `Connection`), `Transfer`, `Library` (class `Process`), `ServeCycle`, `AsWritten`,
   `SharedFrame`.
2. **Zoned device** (`examples/zoned-common.h` over `examples/zoned-ramdisk.c`). `Zoned` says what
   each operation does, `ZonedDevice` (class `ZonedDisk`) does it in place and is proved to do
   that, `ZonedLaws` states every answer and effect condition by condition, `ZonedInvariant`, `ZonedRun`, `ZonedLog` and `ZonedTraffic` prove whole-run properties,
   `ZonedDispatch` and `ZonedList` compare a dispatch in pieces with one call. `ZonedMachine` is
   the same code run by many threads, with every lock explicit, `ZonedSafety`, `ZonedTiling` and
   `ZonedContents` hold for every schedule, and `ZonedSolo` proves that a thread running alone
   does what the sequential operations say.
3. **Request transport** (`kernel/char_dev.c`, `kernel/block_dev.c`, `kernel/command.h`,
   `kernel/request.h`, `library/libbius.c`). `CopyPath` and `CharDev` are the copying path and the
   lists, updated in place; `Exchange` is one library thread over the flat disk and `ZonedExchange`
   over the zoned one; `Protocol`, `ProtocolInvariant`,
   `ProtocolListing` and `ProtocolClaims` are all devices and connections at once, one step for each
   section under a lock, and `ProtocolRuns` are runs that go wrong; `Refinement` proves that the
   methods in place, one for each such section, take those steps. `RoundTrip` joins parts 1 and 3.

Memory is a flat sequence of bytes, a page is 4096 of them, a page table maps window pages to
frame numbers. Integers are unbounded; where the C code decrements an unsigned counter, the field
is a natural number, so that the decrement is proved not to wrap. A `const` or `requires` that
speaks of the block layer (segments of a request do not overlap, a request stays in its zone,
payloads are whole sectors, at most 256 segments) states what that layer guarantees.

## Where the code departs from the obvious property

- `bius_copy_in_misaligned_pages` reads word `i` of the list where the address word is `2 * i`
  (`kernel/data_mapping.c:193` and `:209`). `Transfer.ZeroCopyRead` is the delivery theorem for the
  address word, `Replay.ListCopyInFails` a request that is not delivered as written.
  `AsWritten.DeliversExactly`: for every request the code delivers every payload into every memory
  if and only if its copies bring each byte outside the driver's pages from where it belongs, a
  condition on the list, the reserve list and nothing else. `AsWritten.DeliversIff`: where no two
  copies go to one page, that is so if and only if each word read agrees with its address word in
  page offset (`WordsAgree`); `AsWritten.FramesGivePages` gives this case from partial pieces in
  frames of their own, unless the wrong words make it copy more often than there are partial pieces.
  Where pieces share a frame agreement is only sufficient: `SharedFrame.SharedFrameRepairs` is a
  request with a wrong word that is delivered, because a later copy repairs what an earlier one
  spoiled. `ServeCycle.Serve` runs the code as written and asks for agreement on reads.
- The reserved pages suffice if and only if the segments have at most 256 partial pages together
  (`Accounting.BouncePagesSuffice`). That is so for 256 segments of one page each
  (`Accounting.SinglePageSegmentsFit`) but not for 256 segments that straddle a page boundary
  (`Accounting.StraddlingSegmentsOverflow`).
- `open_zone_locked` takes an active slot for an EMPTY zone before it finds the open limit reached,
  and then does not open the zone. `ZonedRun.ReachableResources` proves the counter to exceed the
  active zones by exactly the slots lost this way; `ZonedTraffic.EvictedAppendLosesSlot` is the
  losing step and `ZonedTraffic.SlotsDoGetLost` a run that takes it. For the same reason a mapped
  write cut into pieces can differ from a single call; `ZonedDispatch.SplitsWellIff` says exactly when,
  and `ZonedDispatch.PiecesDoDiffer` is a reachable state and a payload of two sectors where it does.
- At the open limit an explicit open closes another zone, answers Ok and leaves its own zone as it
  was (`ZonedLaws.OpenEvicts`); a finish is answered Ok also for a conventional zone, of which it
  changes nothing (`ZonedLaws.FinishLaw`).
- Connecting finds a device under one lock and counts the connection under another, and removing
  one counts it down, looks it up by name, newest first, takes it off the list and ends its requests
  in sections of their own. `ProtocolClaims.ListingIff`: the list of devices is right at every point
  of a run (a device in use is listed, a listed one is in use or about to be removed, and nothing is
  taken off twice) if and only if every call counts itself on a device still listed, the last search
  on its way to an unused device finds that device, and only listed devices that nobody uses are
  taken off. Each of the three can fail while the others hold: `ProtocolRuns.CountedTooLate`, where
  names are unique but a connection counts itself on a device already deleted;
  `ProtocolRuns.LeftTwice`, where names are unique but two last releases take one device off the list
  twice and a request ends twice; and `ProtocolRuns.SharedNameEndsTwice`, where a search finds a
  newer namesake that is in use.
- Every accepted request is in exactly one place at every point of a run if and only if no request
  is taken or ended on a device whose requests have been ended (`ProtocolClaims.OnePlaceIff`), which
  follows from the condition above (`ProtocolListing.OrderlyRun`), as does clean teardown
  (`ProtocolClaims.NothingOutstanding`). Unique names suffice if moreover no last release comes while
  another call has the device in hand and no device is found that is being removed
  (`ProtocolClaims.UniqueNamesSuffice`); they are not needed (`ProtocolRuns.NamesakesMayPart`).
- `handle_initialization` keeps the result of `create_block_device` in an unsigned variable, so its
  test for failure never holds (`kernel/char_dev.c:132` and `:146`) and a failed creation would go on
  with a device pointer that was never set. Creation is taken to succeed.

## Model

| member | source | states |
|---|---|---|
| Memory.GatherScatter | kernel/command.h:67-91 | what was scattered over disjoint segments is gathered back byte for byte |
| Memory.ScatterUnique | kernel/command.h:67-91 | a memory is the result of a scatter if and only if the segments hold the payload and no other byte changed |
| Layout.PiecesGather | kernel/data_mapping.c:78-144 | cutting the segments at page boundaries loses, adds and reorders no byte |
| Window.LoadEntriesIsGather | kernel/data_mapping.c:78-157 | reading the window along the merged list entries gives the bytes of the frames behind it, in layout order |
| Window.StoreEntriesIsScatter | kernel/data_mapping.c:78-157 | storing along the entries scatters the bytes over those frames and touches nothing else |
| Window.ListBytesIsTotal | kernel/data_mapping.c:83-88 | the entry lengths sum to the lengths of the pieces |
| ZeroCopy.WriteThroughWindow | kernel/data_mapping.c:78-144 | with the bounce pages filled for a write, the frames behind the window gather to the payload of the bio |
| ZeroCopy.ReadThroughWindow | kernel/data_mapping.c:78-144 | bytes stored into the frames and copied back reach the segments as a direct scatter would deliver them; outside the driver's pages nothing else changes |
| ZeroCopy.PiecesDisjoint | kernel/data_mapping.c:78-144 | disjoint segments give disjoint page pieces |
| ZeroCopy.TargetsDisjoint | kernel/data_mapping.c:90-143 | no two window pages share a byte of the frames behind them |
| Replay.ReplayMatchesLayout | kernel/data_mapping.c:187-216 | with the address word, the copies derived from the list alone are one per partial page, in the order the mapper used the bounce pages, with its offsets and lengths |
| Replay.EntryPlanLaw | kernel/data_mapping.c:187-216 | how many copies an entry gives rise to with whatever word, and where each starts and ends |
| Replay.AsWrittenIsRight | kernel/data_mapping.c:187-216 | with the word the code reads, the plan of copies is the right one if and only if every word that matters agrees with its address word in page offset |
| AsWritten.DeliversExactly | kernel/data_mapping.c:165-217 | as written, a read delivers every payload into every memory if and only if the copies fetch every byte outside the driver's pages from its bounce page, or leave it, as its place in the bio demands |
| AsWritten.RunOrigin | kernel/data_mapping.c:187-216 | each byte after the walk is the byte before it at an address given by list and reserve list alone |
| SharedFrame.SharedFrameRepairs | kernel/data_mapping.c:187-216 | a request with a wrong word, whose copy spoils bytes that a later copy to the same frame repairs, is delivered all the same |
| SharedFrame.SharedFrameExists | kernel/data_mapping.c:187-216 | memory, window and reserve list for which that request can be made |
| AsWritten.DeliversIff | kernel/data_mapping.c:165-217 | as written, a read delivers every payload into every memory if and only if those words agree, for requests no two of whose copies go to one page |
| AsWritten.FramesGivePages | kernel/data_mapping.c:90-106 | partial pieces in frames of their own are copied to pages of their own |
| Replay.ListCopyInFails | kernel/data_mapping.c:193-210 | a two-entry request after whose copy-in a delivered byte is still the old one |
| Replay.RightPlanCopiesBack | kernel/data_mapping.c:187-216 | running the right copies over the reserve list copies every bounce page home |
| Accounting.PageAccounting | kernel/data_mapping.c:90-159 | window pages used are the sum over segments of the pages each touches; bounce pages used are the partial ones among them |
| Accounting.BouncePagesSuffice | kernel/connection.h:12 | every bounce page is a reserved page if and only if the segments have at most 256 partial pages together |
| Accounting.SinglePageSegmentsFit | kernel/connection.h:12 | segments within one page need at most one bounce page each |
| Accounting.StraddlingSegmentsOverflow | kernel/connection.h:12 | n disjoint page-sized segments at offset 512 need 2n bounce pages |
| Accounting.EntriesPerSegment | kernel/data_mapping.c:83-87 | there are at most as many list entries as segments |
| Accounting.EntriesOrdered | kernel/data_mapping.c:83-88 | list entries are non-empty, increasing and share no page |
| Accounting.SplittingIsInvisible | kernel/data_mapping.c:78-144 | mapping the segments page by page gives the same layout as mapping them whole |
| DataMapping.Connection.MapBounce | kernel/data_mapping.c:90-106 | one partial page: its bounce page, page-table entry and reserve-list slot |
| DataMapping.Connection.ListSegment | kernel/data_mapping.c:83-88 | a segment opens a new list entry or lengthens the last one, as the layout says |
| DataMapping.Connection.MapSegment | kernel/data_mapping.c:78-144 | one turn of the segment loop lays out exactly the pieces of that segment, all counters in step |
| DataMapping.Connection.MapData | kernel/data_mapping.c:59-163 | for every segment list whose entries fit the list page: page table, list, reserve list, bounce pages and request fields after mapping are those of the layout; a mapped request is left alone |
| DataMapping.TerminatorSafe | kernel/data_mapping.c:146-151 | the terminator of a full 256-entry list falls on the two reserve-list words nobody uses |
| DataMapping.Connection.CopyEntry | kernel/data_mapping.c:187-216 | one turn of the copy-in loop makes exactly the copies planned for that entry |
| DataMapping.Connection.WalkList | kernel/data_mapping.c:187-216 | the loop stops after exactly the entries of the list, having run the planned copies |
| DataMapping.Connection.CopyIn | kernel/data_mapping.c:165-217 | copy-in as written runs the plan of the words it reads, for simple and list mappings |
| DataMapping.Connection.Unmap | kernel/data_mapping.c:219-233 | every page the mapping covered shows the zero page again and no other page-table entry changes |
| Transfer.ZeroCopyWrite | kernel/data_mapping.c:78-157 | walking the list through the window after mapping a write reads the payload of the bio |
| Transfer.ZeroCopyRead | kernel/data_mapping.c:165-217 | bytes stored along the list and copied in with the address word land in the bio, nothing else changes outside the driver's pages |
| Transfer.DeliveredAgree | kernel/command.h:67-91 | any two deliveries of the same bytes agree outside the driver's pages |
| Transfer.ScatterDelivers | kernel/command.h:67-91 | the copying path's scatter is such a delivery |
| Library.Process.UserSeesList | library/libbius.c:104-109 | the user finds every entry and then a zero word, from the terminator or, at 256 entries, from the zero page behind the list |
| Library.Process.ReadInto | examples/ramdisk.c:14-17 | a backend read into the window stores the disk's bytes through the page table |
| Library.Process.WriteFrom | examples/ramdisk.c:19-22 | a backend write out of the window puts the window's bytes on the disk |
| Library.Process.ListCommand | library/libbius.c:104-151 | dispatching the entries in order has the disk and memory effect of one operation on their concatenation |
| Library.Process.Command | library/libbius.c:153-168 | the same for the simple mapping, and an unsupported operation touches nothing |
| ServeCycle.SingleEntry | kernel/data_mapping.c:152-154 | a single entry is recovered from its page offset and the request length |
| ServeCycle.CopyInIsRight | kernel/data_mapping.c:165-217 | under the condition of AsWrittenIsRight the code as written makes the right copies |
| ServeCycle.Serve | kernel/char_dev.c:94-128 | one mapped request from read call to reply: a write's payload is on the disk, a read's bytes are in the bio, and the whole window is the zero page again |
| Zoned.FirstImpOpen | examples/zoned-common.h:98-114 | the scan's choice is the lowest implicitly open zone other than the caller's, or none exists |
| ZonedInvariant.EvictionSucceeds | examples/zoned-common.h:98-140 | at the open limit with an implicitly open zone the scan finds one, closes exactly that one and makes room |
| ZonedInvariant.OpenLockedInv | examples/zoned-common.h:116-161 | opening keeps zones and counters consistent, losing one active slot exactly when an EMPTY zone finds the open limit reached |
| ZonedInvariant.MarkFullInv | examples/zoned-common.h:163-188 | finishing keeps zones and counters consistent |
| ZonedInvariant.AdvanceInv | examples/zoned-common.h:241-245 | moving the pointer keeps them too, and fills the zone exactly at its end |
| ZonedInvariant.SharesHeld | examples/zoned-common.h:98-188 | no counter a zone gives its share back to can go below zero |
| ZonedLaws.OpenAnswers | examples/zoned-common.h:276-298 | an explicit open is answered I/O error, active limit, open limit or Ok, each if and only if condition, counters and limits are as said |
| ZonedLaws.OpenGranted | examples/zoned-common.h:116-161 | where no eviction is due the zone ends explicitly open with its pointer kept, also from implicitly open, and the three counters are exact |
| ZonedLaws.OpenEvicts | examples/zoned-common.h:136-141 | where eviction is due the lowest other implicitly open zone is closed, the zone asked for keeps its condition, and the counters are exact |
| ZonedLaws.OpenRefused | examples/zoned-common.h:130-142 | a refused open changes nothing, but that an EMPTY zone at the open limit has lost its slot |
| ZonedLaws.CloseLaw | examples/zoned-common.h:300-329 | a close is answered Ok if and only if the zone was open or CLOSED; it is then EMPTY at its start and CLOSED otherwise, and the counters drop by what it held |
| ZonedLaws.FinishLaw | examples/zoned-common.h:331-340 | every finish is answered Ok; a sequential zone ends FULL with its pointer at its end, a conventional one is unchanged |
| ZonedLaws.ResetLaw | examples/zoned-common.h:346-384 | a reset is refused by conventional zones only, counts itself and the bytes in use, and rewinds and zeroes a zone that is not EMPTY |
| ZonedLaws.ResetAllLaw | examples/zoned-common.h:386-391 | the zone table after reset-all, field by field, no resources held, a zeroed disk |
| ZonedLaws.InitLaw | examples/zoned-common.h:39-92 | the same for a new device, with nothing counted |
| ZonedLaws.ReadLaw | examples/zoned-common.h:190-198 | a read returns the bytes asked for and counts them |
| ZonedLaws.ConventionalLaw | examples/zoned-common.h:206-210 | a conventional zone takes writes anywhere and refuses appends |
| ZonedLaws.WriteAnswers | examples/zoned-common.h:211-239 | a write or append to a sequential zone is answered I/O error, active limit or open limit, each if and only if payload, pointer, condition, counters and limits are as said, and what a refusal leaves |
| ZonedLaws.WriteReports | examples/zoned-common.h:212-216 | an append is told the old pointer, a write nothing |
| ZonedLaws.WriteDoes | examples/zoned-common.h:211-251 | an accepted payload goes to the old pointer; zone, victim, counters and statistics afterwards, for every condition it finds |
| ZonedLaws.ExplicitStays | examples/zoned-common.h:98-114 | a zone opened explicitly stays so whatever is done to other zones |
| ZonedLaws.StatsLaw | examples/zoned-ramdisk.c:53-61 | the statistics of a zone move by reads, accepted writes and resets of that zone, by the stated amounts, and by nothing else |
| ZonedRun.StepInv | examples/zoned-common.h:190-391 | every operation keeps the invariant, and the active counter drifts by exactly the slots it loses |
| ZonedRun.ReachableResources | examples/zoned-common.h:98-188 | in every reachable state the open counters are exact and within limits, and the active counter exceeds the active zones by exactly the slots lost; it is exact if and only if none was |
| ZonedLog.SequentialWrite | examples/zoned-common.h:200-256 | a write or append is accepted if and only if it fits at the pointer and its zone can open; then it goes to the old pointer, which an append reports; otherwise nothing of the zone changes |
| ZonedLog.StepOthers | examples/zoned-common.h:200-384 | an operation leaves other zones alone, but for closing one that was implicitly open |
| ZonedLog.StepLog | examples/zoned-common.h:200-391 | every operation keeps a zone equal to its log followed by zeros |
| ZonedLog.ZonesAreLogs | examples/zoned-common.h:200-391 | over every run each sequential zone holds the accepted payloads since its last effective reset, in order, then zeros |
| ZonedLog.ReadsSeeLog | examples/zoned-common.h:190-198 | a read returns that part of the padded log |
| ZonedLog.AppendReportsItsPlace | examples/zoned-common.h:212-216 | an accepted append reports where its payload starts in the log |
| ZonedLog.WrittenBytesStay | examples/zoned-ramdisk.c:18-31 | no operation but a rewinding reset changes a byte below the write pointer |
| ZonedLog.ReachablePointers | examples/zoned-common.h:163-188 | in every reachable state the pointer is inside its zone, FULL means at the end, conventional zones have none, and an implicitly open or closed zone has been written |
| ZonedTraffic.TrafficConserved | examples/zoned-ramdisk.c:53-61 | discarded plus in use equals written plus the slack of finishes, idle resets and reset-alls |
| ZonedTraffic.WrittenIsAccountedFor | examples/zoned-ramdisk.c:53-61 | without reset-all written never exceeds discarded plus in use, with equality if and only if no finish cut the zone short and no reset hit it EMPTY with bytes in it |
| ZonedTraffic.EvictedAppendLosesSlot | examples/zoned-common.h:130-144 | an accepted append that evicts leaves its zone EMPTY with bytes in it and loses a slot for good |
| ZonedTraffic.SlotsDoGetLost | examples/zoned-common.h:130-144 | two appends under an open limit of one lose a slot |
| ZonedDevice.ZonedDisk.constructor | examples/zoned-common.h:66-92 | initialisation gives the fresh device, no traffic, a zeroed disk |
| ZonedDevice.ZonedDisk.CloseImpOpenZone | examples/zoned-common.h:98-114 | the scanning loop closes exactly the lowest implicitly open zone other than the caller's |
| ZonedDevice.ZonedDisk.OpenZoneLocked | examples/zoned-common.h:116-161 | the fall-through switch, in place, is OpenLocked, whose answers and effects are OpenAnswers, OpenGranted, OpenEvicts and WriteAnswers |
| ZonedDevice.ZonedDisk.MarkZoneFullLocked | examples/zoned-common.h:163-188 | the fall-through switch, in place, is MarkFull |
| ZonedDevice.ZonedDisk.Read | examples/zoned-common.h:190-198 | counts the traffic and returns the bytes |
| ZonedDevice.ZonedDisk.Write | examples/zoned-common.h:200-256 | writes and appends do to table, counters, statistics and bytes what Step says, spelled out in WriteAnswers, WriteDoes and WriteReports |
| ZonedDevice.ZonedDisk.Open | examples/zoned-common.h:276-298 | explicit open does what Step says, spelled out in OpenAnswers, OpenGranted, OpenEvicts and OpenRefused |
| ZonedDevice.ZonedDisk.Close | examples/zoned-common.h:300-329 | close does what Step says, spelled out in CloseLaw |
| ZonedDevice.ZonedDisk.Finish | examples/zoned-common.h:331-340 | finish does what Step says, spelled out in FinishLaw |
| ZonedDevice.ZonedDisk.Reset | examples/zoned-common.h:346-384 | reset does what Step says, discarding only when it rewinds |
| ZonedDevice.ZonedDisk.ResetAllZones | examples/zoned-common.h:386-391 | reset-all gives a fresh table over a zeroed disk and keeps the statistics |
| ZonedDispatch.WriteSplit | examples/zoned-common.h:200-256 | a write whose zone opens freely can be cut at any sector boundary |
| ZonedDispatch.SegmentedEqualsWhole | library/libbius.c:104-151 | a dispatch in pieces then gives the same device, bytes, status and reported position as one call |
| ZonedDispatch.SplitsWellIff | library/libbius.c:104-151 | for every state and payload, the dispatch equals one call if and only if there is one piece, or the payload fits and its zone cannot open, opens freely, or is filled by it with a slot to spare, or not even the first piece fits |
| ZonedDispatch.PiecesDoDiffer | library/libbius.c:104-151 | after one append under an open limit of one, an append of two sectors to another zone in two pieces does not end like the one call |
| ZonedList.ListWrite | library/libbius.c:104-151 | the loop with offset and first_call, over the device in place, is that dispatch |
| ZonedSafety.MoveSafe | examples/zoned-common.h:98-384 | no move of any thread breaks lock ownership, zones or counters |
| ZonedSafety.ScanFinds | examples/zoned-common.h:98-140 | under the global lock the eviction scan always has an implicitly open zone ahead of it, whatever the other threads do |
| ZonedSafety.SafeUnderEverySchedule | examples/zoned-common.h:98-384 | under every schedule the open counters are exact and limited, the active counter bounds the active zones, and no two threads hold one lock |
| ZonedSafety.QuietIsConsistent | examples/zoned-common.h:98-384 | once all calls have returned the device satisfies the sequential invariant |
| ZonedTiling.TiledApart | examples/zoned-common.h:204-251 | no two reservations share a byte |
| ZonedTiling.MoveTile | examples/zoned-common.h:204-251 | every move keeps reservations, pointers, landed bytes and answers in step |
| ZonedTiling.ReservationsTile | examples/zoned-common.h:204-251 | under every schedule without finish or reset the reservations of a zone are contiguous from its first pointer to its current one, disjoint, and every accepted call was told the start of its own |
| ZonedContents.QuietContents | examples/zoned-common.h:204-251 | once all raw writes have landed each zone holds what it held, and from old to new pointer its payloads in reservation order |
| ZonedContents.LandingOrderIsInvisible | examples/zoned-common.h:247-251 | two schedules that reserved the same payloads per zone end with the same disk |
| ZonedSolo.OpenAlone | examples/zoned-common.h:116-161 | open_zone_locked step by step, without interference, ends where OpenLocked says |
| ZonedSolo.AloneIsStep | examples/zoned-common.h:98-384 | a call made while nobody else is at work ends with the device, bytes and answer of the sequential operation |
| CopyPath.WholeBio | kernel/command.h:45 | of a bio nothing was sent of, exactly its vectors are left, in order |
| CopyPath.ChainConcat | kernel/command.h:58-59 | a chain is left in the order of its bios |
| CopyPath.AdvancedRest | kernel/command.h:45-56 | advancing the iterator takes exactly the sent bytes off the bio, whose size reaches zero exactly when its vectors do |
| CopyPath.ChainStep | kernel/command.h:44-62 | sending n bytes takes them off the front of what the chain holds |
| CharDev.NothingSent | kernel/command.h:58-61 | a bio that sent nothing is not exhausted, so the loop ends there |
| CharDev.SendData | kernel/command.h:31-65 | whatever each copy achieves, the buffer gets the next bytes of the payload, map_data stays the bytes left, the null bio is never touched, the loop ends |
| CharDev.GetRequestById | kernel/request.h:45-54 | the search finds the first request of that id or none |
| CharDev.Connection.ReadData | kernel/char_dev.c:62-71 | a read in mid-stream sends the next part, and clears `sending` exactly when the payload is complete |
| CharDev.Connection.TakeFirst | kernel/char_dev.c:76-113 | the first pending request is taken; a write or append with data streams the payload of its bios, anything else streams nothing |
| CharDev.Connection.SendHeader | kernel/char_dev.c:115-126 | its header is sent and it waits, or it ends and streams nothing |
| CharDev.Connection.ReadCommand | kernel/char_dev.c:73-128 | the first pending request goes to the end of the waiting list with its header sent, a write or append with data streaming its payload and nothing else streaming, or it is ended and streams nothing; the error codes |
| CharDev.Connection.ReceiveData | kernel/command.h:67-91 | the user's bytes are scattered over the segments; on a fault nothing outside them changed |
| CharDev.Connection.FindReply | kernel/char_dev.c:201-210 | the request named stops waiting and being sent, or there is none and nothing changes |
| CharDev.Connection.EndReply | kernel/char_dev.c:216-245 | a reply's data is delivered and its request ends, once, with its result |
| CharDev.Connection.Reply | kernel/char_dev.c:181-248 | a reply ends the waiting request it names, once, with its result and its data delivered; any other reply changes nothing |
| CharDev.Connection.Connect | kernel/char_dev.c:131-179 | connecting counts the connection and sets its device, or fails |
| CharDev.Connection.Drop | kernel/char_dev.c:268-284 | every waiting request ends, the count drops, and the last one is told |
| CharDev.Connection.Release | kernel/char_dev.c:268-287 | every waiting request ends, the count drops, and the last connection removes the device of that name and ends what is pending on it |
| CharDev.Registry.GetBlockDevice | kernel/block_dev.c:300-317 | the newest device of that name, or none |
| CharDev.Registry.Unlink | kernel/block_dev.c:269-271 | the device leaves the list from wherever it is on it |
| CharDev.Registry.Remove | kernel/block_dev.c:262-276 | that device leaves the list and its pending requests end |
| Exchange.HandleCopyIn | library/libbius.c:80-102 | however the kernel cuts the stream the buffer is the payload, and `sending` is cleared by the read that completes it and by no earlier one; without faults it always gets there |
| Exchange.Fetch | library/libbius.c:80-102 | the header describes the first pending request, the buffer is the payload of a write or an append, and the next read finds a header again |
| Exchange.Answer | library/libbius.c:255-266 | the request ends once with the reply as its result, a read's data in its segments and an append's position in the request |
| Exchange.Backend.Handle | library/libbius.c:153-220 | the flat disk reads, writes, discards and flushes, and supports nothing else |
| Exchange.ServeOne | library/libbius.c:222-272 | one turn of the library's loop for requests of every kind, from pending list to ended request, whatever else waits on the connection |
| ZonedExchange.Handle | library/libbius.c:153-220 | each kind of request does its own operation on the zoned disk |
| ZonedExchange.ServeZoned | library/libbius.c:222-272 | one turn of the loop over the zoned disk; a request ends once with the device's status, and an append that succeeds finds its payload on the disk at the position it is told |
| ZonedExchange.AppendedAt | kernel/char_dev.c:243-245 | the position reported for an append is where the disk holds the bytes of its bios |
| RoundTrip.WritesAgree | kernel/command.h:31-65 | a mapped write, laid out page by page, leaves the disk that the copying path leaves from the bios' whole vectors |
| RoundTrip.CopyDelivers | kernel/command.h:67-91 | the copying path delivers what a mapped read delivers |
| RoundTrip.ReadsAgree | kernel/command.h:67-91 | mapped and copied reads leave the same memory outside the driver's pages |
| RoundTrip.WrittenIsRead | library/libbius.c:80-168 | a payload written from one segmentation is read back into any other of the same range, on either path |
| RoundTrip.MappedRoundTrip | kernel/char_dev.c:94-248 | a whole mapped write and a whole mapped read: the second bio holds what the first held |
| RoundTrip.CopiedRoundTrip | kernel/char_dev.c:62-248 | the same for two turns of the copying path with the stream cut at will |
| ProtocolInvariant.StepInv | kernel/char_dev.c:47-287 | every section keeps every accepted request in exactly one place, provided requests are taken and ended only on devices whose requests have not been ended |
| ProtocolInvariant.TakeInv | kernel/char_dev.c:76-90 | taking the first pending request moves it and nothing else |
| ProtocolInvariant.CountInv | kernel/char_dev.c:172-176 | counting a connection moves no request and keeps the count equal to the live connections |
| ProtocolInvariant.DropInv | kernel/char_dev.c:268-281 | a release ends what waits, once, and keeps the count equal to the live connections |
| ProtocolInvariant.EndPendingInv | kernel/block_dev.c:273-276 | ending what is pending moves each request from pending to ended |
| ProtocolListing.StepListing | kernel/block_dev.c:262-276 | a section keeps the list of devices right if and only if it is no count on an unlisted device, no search that leaves a device behind, and no removal from the list of a device that is off it or in use |
| ProtocolListing.OrderlyRun | kernel/block_dev.c:262-276 | a run of such sections keeps the list right and every request in one place |
| ProtocolClaims.OnePlaceIff | kernel/char_dev.c:76-90 | no request is lost or in two places at any point of a run if and only if none is taken or ended on a device whose requests have been ended |
| ProtocolClaims.ListingIff | kernel/block_dev.c:262-276 | the list of devices is right at every point of a run if and only if every step keeps the three guards |
| ProtocolClaims.UniqueNamesSuffice | kernel/block_dev.c:300-317 | fresh names, and no release or search in the way of another call, keep the guards |
| ProtocolRuns.CountedTooLate | kernel/char_dev.c:165-176 | with unique names: a connection that found a device counts itself when the device is deleted |
| ProtocolRuns.LeftTwice | kernel/block_dev.c:262-276 | with unique names: a device is left by two last releases, taken off the list twice, and its request ends twice |
| ProtocolRuns.SharedNameEndsTwice | kernel/block_dev.c:262-276 | with two devices of one name: a request ends twice and a live connection's device is removed |
| ProtocolRuns.NamesakesMayPart | kernel/block_dev.c:262-276 | two namesakes released newest first do no harm |
| ProtocolClaims.ExactlyOnce | kernel/block_dev.c:56-74 | after every run that keeps the guard of OnePlaceIff each accepted request is in exactly one of pending, in a call, waiting, ended, so it ends at most once, and requests leave pending in the order they came |
| ProtocolClaims.ReplyEndsItsOwn | kernel/char_dev.c:201-247 | a reply ends the request it names if that waits on its own connection, and otherwise changes nothing |
| ProtocolClaims.NothingOutstanding | kernel/block_dev.c:262-276 | where the guards are kept the count is the number of live connections, a deleted device is unlisted and unused and everything it accepted has ended, once, and a device nobody uses or has in hand is deleted |
| Refinement.QueueRq | kernel/block_dev.c:56-74 | accepting a request, in place, is a step of the protocol |
| Refinement.TakeFirst | kernel/char_dev.c:76-115 | the section under the pending lock, in place, is the protocol's step, in any state of the protocol |
| Refinement.SendHeader | kernel/char_dev.c:117-128 | so are the sending of the header and the section under the waiting lock |
| Refinement.ReadData | kernel/char_dev.c:62-71 | the read of a payload's last byte is the protocol's step, any other changes nothing of it |
| Refinement.FindReply | kernel/char_dev.c:201-212 | the section under the waiting lock of a reply is the protocol's step |
| Refinement.EndReply | kernel/char_dev.c:214-247 | so is the rest of the reply |
| Refinement.OpenConnection | kernel/char_dev.c:15-45 | opening adds a connection |
| Refinement.AddDevice | kernel/block_dev.c:240-242 | the section that puts a new device on the list is the protocol's step |
| Refinement.FindDevice | kernel/block_dev.c:300-317 | the search of a connecting call finds the protocol's device, or none exactly if there is none |
| Refinement.CountConnection | kernel/char_dev.c:172-176 | counting the connection, in place, is the protocol's step |
| Refinement.DropConnection | kernel/char_dev.c:268-281 | a release up to its section under the connection lock is the protocol's step, and says when it was the last |
| Refinement.SearchDevice | kernel/block_dev.c:263-267 | the search of a removal is the protocol's step |
| Refinement.UnlinkDevice | kernel/block_dev.c:269-271 | taking the device off the list is the protocol's step |
| Refinement.EndPendingRequests | kernel/block_dev.c:273-276 | ending what is pending on it is the protocol's step |
| Refinement.SameNewest | kernel/block_dev.c:300-317 | the search of the list from its end finds the protocol's newest listed device of that name |
| Refinement.EndsOnce | kernel/request.h:35-38 | in every such state a request has ended at most once, and has ended if and only if no device that is not deleted has it pending, no open connection has it waiting and no call has it in hand |

## Left out

- ServeCycle.Serve: covers mapping, backend, copy-in and unmapping of one request; header, pending and waiting lists and the end of the request are those of CharDev. For reads it asks that the words copy-in reads agree with the address words, which is exact where no two copies go to one page (AsWritten.DeliversIff) and otherwise only sufficient; the bounce pages are asked to suffice, because the code does not check.
- DataMapping.Connection.MapData: asks for at most 256 list entries and 256 partial pages, because the code checks neither and overruns its list page or reserved pages beyond; Accounting.BouncePagesSuffice says when the latter happens.
- Refinement.FindDevice: a search is made to refine the protocol only while the list is intact; what the code does on a list from which a device was taken twice is not modelled.
- Refinement.SearchDevice: the same.
- ZonedTiling.ReservationsTile: speaks of schedules without finish and reset, because those move the pointer while raw writes are in flight, and of writes to sequential zones, because conventional zones have no pointer.
- ZonedMachine: reset-all is not among the concurrent tasks, because it takes no zone lock; the raw discard of a reset is one step; the counting of a reset and its switch are one step under both locks.
- Deadlock freedom and progress of the spinlocks: not claimed; eviction takes zone locks under the global lock, the other paths the other way round.
- Protocol: what a call does outside locks goes with the section before or after it. The loop that ends pending requests takes no lock and is one step with the deletion of the disk, so no request arrives from then on; requests that arrive between add_disk and the listing can be taken to arrive after it, because nobody can find the device before. A connection has at most one read call and one write call in flight, as the library has.
- CharDev.Connection.Connect: creation of the device is taken to succeed, see above.
- Requests of an unsupported operation and report-zones requests: outside the exactly-once claim, because the first are ended and refused at once and the second are not block requests.
- CharDev: the build without CONFIG_BIUS_DATAMAP; a read call that keeps waiting for a request has not happened yet, an interrupted one returns an error.
- Error paths of mapping: bius_map_data never fails, so only its success is modelled; a fault while a mapped header is copied out leaves the window mapped and is not part of ServeCycle.
- Linux calls: page tables, TLB and cache flushing, bio iteration, blk-mq, disk registration and copying to and from user memory appear by their effect.
- Zone descriptor extensions, report_zones output, the passthrough backends, option parsing, thread creation and printing.
- Wrap-around of 32-bit and 64-bit integers: sizes are assumed to fit; what is proved is that no counter goes below zero.
