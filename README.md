# Flow capture engine — a Dafny model

Flow synchronizes several streams of stamped data. Each stream is held by a **captor**. A captor is a queue of
`(stamp, value)` dispatches kept in strictly increasing stamp order, plus a capacity limit, a queue monitor and a
**capture policy**.

- **Driver** policies establish a capture window (a `CaptureRange`) from their own queue: Next, Batch, Chunk and
  Throttled.
- **Follower** policies select data relative to that window: Before, AnyBefore, ClosestBefore, CountBefore,
  Latched, MatchedStamp, Ranged, and the legacy Exact.
- The **synchronizer** runs in two phases. It first locates the lead (a driver or a fixed window) and then every
  follower in order, while the state stays PRIMED. On RETRY it extracts nothing; otherwise every captor extracts
  its own selection and reports the outcome to its queue monitor.

The model keeps the source's shape:

| file | models |
|---|---|
| `dispatch.dfy` | dispatches, capture windows, extraction ranges, states |
| `dispatch_queue.dfy` | the `DispatchQueue` class: sorted de-duplicating insert and the prefix removals, each specified by a function on the queue's contents |
| `captor.dfy` | the `Captor` class: capacity, insert-and-limit, inspect, the queue-monitor hook, and the policy datatype |
| `captor_nolock.dfy` | the single-threaded captor's capture, dry capture, abort and reset |
| `driver*.dfy` | the driver base and its four policies |
| `follower*.dfy` | the follower base and its eight policies |
| `synchronizer.dfy` | locate and extract helpers, `capture`, `remove`, `abort`, `reset` |

Every policy is written twice:

- as **specification functions** on the queue contents, which carry the lemmas;
- as **methods** on a `Captor`. These mutate its queue, latch or throttle stamp with the source's own loops, and
  their `ensures` tie the new state to the specification functions.

Stamps are unbounded integers. `STAMP_MIN`/`STAMP_MAX` are the 32-bit limits of the `int` stamps the library is
instantiated with.

## Model

| member | source | states |
|---|---|---|
| Dispatches.AccessorsReadBack | flow/include/dispatch.h:118-146 | `get_stamp`/`get_value` return exactly the dispatch's stamp and value |
| Dispatches.DefaultRange | flow/include/dispatch.h:168-173 | a default window has lower = max stamp and upper = min stamp, so it is neither valid nor truthy |
| Dispatches.NoExtractionIsEmpty | include/flow/impl/follower/matched_stamp.hpp:52-62 | a default extraction range selects nothing and fits inside any queue |
| DispatchQueues.LeadingBelow | include/flow/impl/dispatch_queue.hpp:100-107 | the number of leading elements stamped before `t`: all of them are below `t`, and the next is not |
| DispatchQueues.LeadingAtOrBelow | include/flow/impl/dispatch_queue.hpp:110-117 | the number of leading elements stamped at or before `t`: all of them are at or below `t`, and the next is above |
| DispatchQueues.LeadingBelowOrdered | include/flow/impl/dispatch_queue.hpp:100-107 | on an ordered queue, an element is below `t` if and only if it lies in the leading run that `remove_before(t)` drops |
| DispatchQueues.LeadingAtOrBelowOrdered | include/flow/impl/dispatch_queue.hpp:110-117 | on an ordered queue, an element is at or below `t` if and only if it lies in the run that `remove_at_before(t)` drops |
| DispatchQueues.DroppedBelow | include/flow/impl/dispatch_queue.hpp:100-107 | what `remove_before(t)` keeps is ordered, is entirely at or after `t`, and contains every element at or after `t` |
| DispatchQueues.LeadingBelowAt | include/flow/impl/dispatch_queue.hpp:100-107 | in an ordered queue, `remove_before(s[k].stamp)` drops exactly the `k` elements before `s[k]` |
| DispatchQueues.InsertedElements | include/flow/impl/dispatch_queue.hpp:34-64 | insertion loses no element, adds nothing but `d`, and grows the queue by at most one |
| DispatchQueues.InsertedStamps | include/flow/impl/dispatch_queue.hpp:34-64 | after insertion, `d`'s stamp is queued |
| DispatchQueues.InsertedOrdered | include/flow/impl/dispatch_queue.hpp:34-64 | insertion keeps the queue strictly increasing, whatever the arrival order |
| DispatchQueues.InsertedDuplicate | include/flow/impl/dispatch_queue.hpp:59-63 | inserting an already-queued stamp leaves the queue unchanged: the first value survives and the size stays |
| DispatchQueues.InsertedFresh | include/flow/impl/dispatch_queue.hpp:42-57 | inserting a fresh stamp places `d` right after every older element, leaving all others in place (size + 1) |
| DispatchQueues.InsertedAllOrdered | include/flow/impl/dispatch_queue.hpp:34-64 | any sequence of insertions keeps the queue ordered |
| DispatchQueues.ShrunkKeepsNewest | include/flow/impl/dispatch_queue.hpp:120-127 | `shrink_to_fit(n)` leaves min(size, n) elements, is a suffix of the queue (oldest dropped), and keeps the order |
| DispatchQueues.RBefore | include/flow/impl/dispatch_queue.hpp:77-83 | `rbefore(t)` finds the newest element stamped before `t`, or `rend()` when every element is at or after `t` |
| DispatchQueues.BeforeAsWrittenMissesNewest | include/flow/impl/dispatch_queue.hpp:66-74 | on stamps 5, 6, 7, `before(8)` returns `end()` while `rbefore(8)` finds stamp 7 |
| DispatchQueues.BeforeAsWrittenBeforeBegin | include/flow/impl/dispatch_queue.hpp:66-74 | on a queue starting at stamp 5, `before(5)` steps before `begin()` |
| DispatchQueues.BeforeIndex | include/flow/impl/dispatch_queue.hpp:66-74 | corrected `before(t)`: the last element before `t` whose successor, if any, is at or after `t`; none when the queue is empty or starts at or after `t` |
| DispatchQueues.BeforeIndexIsRBefore | include/flow/impl/dispatch_queue.hpp:66-83 | on an ordered queue the corrected `before` and `rbefore` find the same element |
| DispatchQueues.BeforeOnLibraryCases | test/flow/dispatch_queue.cpp:262-309 | the library's own cases: on stamps 5, 6, 7, `before` and `rbefore` find 5 for 6 and 6 for 7, and on an empty queue both return the end position |
| DispatchQueues.DispatchQueue.constructor | include/flow/impl/dispatch_queue.hpp:17-19 | the queue holds the given container |
| DispatchQueues.DispatchQueue.Size | include/flow/impl/dispatch_queue.hpp:21-25 | `size()` is the number of queued dispatches |
| DispatchQueues.DispatchQueue.Insert | include/flow/impl/dispatch_queue.hpp:34-64 | after the backward scan-and-emplace loop, the queue is the sorted de-duplicating insertion of `d` |
| DispatchQueues.DispatchQueue.Pop | include/flow/impl/dispatch_queue.hpp:86-91 | returns the oldest element and removes it |
| DispatchQueues.DispatchQueue.Clear | include/flow/impl/dispatch_queue.hpp:94-97 | the queue becomes empty |
| DispatchQueues.DispatchQueue.RemoveBefore | include/flow/impl/dispatch_queue.hpp:100-107 | the pop loop drops exactly the leading run stamped before `t`; the rest is unchanged |
| DispatchQueues.DispatchQueue.RemoveAtBefore | include/flow/impl/dispatch_queue.hpp:110-117 | the pop loop drops exactly the leading run stamped at or before `t`; the rest is unchanged |
| DispatchQueues.DispatchQueue.ShrinkToFit | include/flow/impl/dispatch_queue.hpp:120-127 | the pop loop drops oldest elements until at most `n` are left |
| DispatchQueues.DispatchQueue.RemoveFirstN | include/flow/impl/follower/before.hpp:72 | `remove_first_n(n)` drops the `n` oldest elements |
| Captors.ConstructionError | include/flow/impl/driver/batch.hpp:103-110 | a policy constructor throws exactly for batch size 0, chunk size 0 or count 0, with the source's messages: Batch's `validate` here, and likewise the Chunk constructor (include/flow/impl/driver/chunk.hpp, lines 84-87) and the CountBefore constructor (include/flow/impl/follower/count_before.hpp, lines 30-33) |
| Captors.DefaultMonitorAccepts | include/flow/captor.hpp:54-58 | the default queue monitor's `check` is always true |
| Captors.Moved | include/flow/impl/follower/before.hpp:71-72 | `move(er)` then `remove_first_n(er.last)`: the selection goes to the output and the queue keeps what follows it |
| Captors.MovedSplitsAt | include/flow/impl/follower/any_before.hpp:77-78 | moving the leading run below `t` splits an ordered queue at `t`: everything below `t` is output, everything kept is at or after `t` |
| Captors.Copied | include/flow/impl/follower/count_before.hpp:85-86 | `copy(er)` then `remove_first_n(er.first)`: the output is exactly `s[first..last]`, the queue keeps exactly `s[first..]`, so the selection stays queued at the front of what is kept |
| Captors.LimitedKeepsNewest | flow/src/captor_interface.hpp:37-40 | with capacity c > 0 the queue holds at most c; capacity 0, or a queue within it, keeps everything; eviction drops only the oldest; order is kept |
| Captors.InsertedAllLimitedOrdered | flow/include/impl/captor_nolock.hpp:96-101 | inserting a range one by one through `insert_and_limit` keeps the queue ordered and within a non-zero capacity |
| Captors.InsertedAllUnlimited | flow/include/impl/captor_nolock.hpp:96-101 | with capacity 0, inserting a range through `insert_and_limit` is plain repeated insertion |
| Captors.Captor.constructor | flow/include/impl/captor_nolock.hpp:48-50 | a new captor holds the given policy, container and monitor, with capacity 0, an empty monitor log, no latch and the throttle stamp at its minimum |
| Captors.Captor.Size | flow/include/impl/captor_nolock.hpp:83 | the captor's size is its queue's size |
| Captors.Captor.SetCapacity | flow/include/impl/captor_nolock.hpp:115 | `set_capacity(n)` writes the capacity field |
| Captors.Captor.InsertAndLimit | flow/src/captor_interface.hpp:31-41 | sorted insertion followed by `shrink_to_fit(capacity)` when the capacity is non-zero; keeps the queue ordered and within capacity |
| Captors.Captor.Inject | flow/include/impl/captor_nolock.hpp:88-91 | `inject` is one `insert_and_limit` |
| Captors.Captor.InsertRange | flow/include/impl/captor_nolock.hpp:96-101 | `insert(first, last)` feeds the dispatches through `insert_and_limit` one by one, in order, keeping the queue ordered |
| Captors.Captor.Remove | flow/include/impl/captor_nolock.hpp:106-110 | `remove(t)` is `remove_before(t)` on the queue |
| Captors.Captor.Inspect | flow/include/impl/captor_nolock.hpp:152-158 | `inspect(cb)` applies `cb` to every dispatch, oldest first, without changing the queue |
| Captors.Captor.UpdateQueueMonitor | flow/include/impl/captor_nolock.hpp:163-167 | `update_queue_monitor(range, state)` hands exactly that pair to the monitor |
| Captors.AvailableStampRangeSpans | flow/include/impl/captor_nolock.hpp:125-129 | the available range is invalid exactly when the queue is empty; otherwise it is [oldest, newest] and spans every queued stamp |
| CaptorNoLock.ResetLeavesNothing | flow/include/impl/captor_nolock.hpp:62-69 | after `reset`, the queue is empty: a capture outputs nothing and retries (or is vetoed by the monitor), and a dry capture retries |
| CaptorNoLock.AbortDropsBelowBound | flow/include/impl/captor_nolock.hpp:74-78 | `abort(t)` changes only the queue: it keeps an ordered suffix, dropping exactly the data below the policy's bound, or nothing when the policy's abort is empty |
| CaptorNoLock.OnlyFollowersSkip | include/flow/impl/follower/follower.hpp:24-34 | a capture ends SKIP_FRAME_QUEUE_PRECONDITION exactly when the captor is a monitored follower whose monitor's `check` fails |
| CaptorNoLock.Capture | flow/include/impl/captor_nolock.hpp:134-139 | `capture` evaluates the policy's capture once: state, window, output and new captor state are that one step |
| CaptorNoLock.DryCapture | flow/include/impl/captor_nolock.hpp:144-147 | `dry_capture` is the policy's dry capture, with no output |
| CaptorNoLock.Abort | flow/include/impl/captor_nolock.hpp:74-78 | `abort(t)` is the policy's abort |
| CaptorNoLock.Reset | flow/include/impl/captor_nolock.hpp:62-69 | `reset` runs the policy's reset and then clears the queue |
| Drivers.DryCaptureAgrees | include/flow/impl/driver/next.hpp:29-56 | a driver's dry capture reports the state and window its capture then establishes, and changes nothing |
| Drivers.NextConsumes | include/flow/impl/driver/next.hpp:29-37 | Next primes or retries; a retry leaves window, output and queue alone; a prime outputs data inside a valid window and keeps only data after it |
| Drivers.ChunkConsumes | include/flow/impl/driver/chunk.hpp:38-53 | the same for Chunk |
| Drivers.ThrottledConsumes | include/flow/impl/driver/throttled.hpp:35-50 | the same for Throttled |
| Drivers.CaptureConsumesWindow | include/flow/impl/driver/driver.hpp:22-27 | every driver capture primes or retries; a retry leaves window, output and captor untouched; a prime outputs data inside a valid window and leaves only newer data queued |
| Drivers.Locate | include/flow/impl/driver/driver.hpp:30-34 | a Batch driver's `locate` selects a range inside its queue |
| Drivers.CapturePolicy | include/flow/impl/driver/driver.hpp:22-27 | `capture_policy_impl` runs the policy's `capture_driver_impl` |
| Drivers.DryCapturePolicy | include/flow/impl/driver/next.hpp:41-56 | a driver's dry capture is its window computation and leaves the captor unchanged |
| Drivers.LocatePolicy | include/flow/impl/driver/driver.hpp:30-34 | `locate_policy_impl` runs `locate_driver_impl` and changes nothing |
| Drivers.ExtractPolicy | include/flow/impl/driver/driver.hpp:37-45 | `extract_policy_impl` runs `extract_driver_impl` |
| Drivers.AbortPolicy | include/flow/impl/driver/driver.hpp:48-51 | every driver's abort drops the data stamped before `t` |
| Drivers.ResetPolicy | include/flow/impl/driver/driver.hpp:54 | a driver's reset forgets Throttled's last stamp and changes nothing for the others |
| DriverBatch.Location | include/flow/impl/driver/batch.hpp:44-58 | `locate`'s extraction range lies inside the queue |
| DriverBatch.Extraction | include/flow/impl/driver/batch.hpp:69-79 | a non-empty extraction copies the selection and pops only the oldest element; an empty one does nothing |
| DriverBatch.BatchSelectsOldest | include/flow/impl/driver/batch.hpp:44-58 | `locate` primes if and only if N are queued and retries otherwise, leaving the window and selecting nothing; on a prime the window holds exactly the N oldest, which are output, and only the oldest leaves |
| DriverBatch.BatchSlides | include/flow/impl/driver/batch.hpp:74-78 | successive batches slide by one element: the next batch is the previous one without its oldest, plus the next element |
| DriverBatch.ExtractDriver | include/flow/impl/driver/batch.hpp:69-79 | `extract_driver_impl` is the Batch extraction on the queue |
| DriverBatch.AbortDriver | include/flow/impl/driver/batch.hpp:89-93 | `abort(t)` drops the data stamped before `t` |
| DriverChunk.Capture | include/flow/impl/driver/chunk.hpp:34-53 | on PRIMED the N oldest dispatches are output and popped; otherwise nothing is output or removed |
| DriverChunk.ChunksTile | include/flow/impl/driver/chunk.hpp:34-72 | two successive chunks output the 2N oldest dispatches in order, without overlap, each inside its own window |
| DriverChunk.CaptureDriver | include/flow/impl/driver/chunk.hpp:34-53 | `capture_driver_impl` with its pop loop is the Chunk capture on the queue |
| DriverChunk.AbortDriver | include/flow/impl/driver/chunk.hpp:74-78 | `abort(t)` drops the data stamped before `t` |
| DriverNext.Capture | include/flow/impl/driver/next.hpp:23-38 | on PRIMED exactly the oldest dispatch is popped to the output; otherwise nothing is output or removed |
| DriverNext.NextCapturesOldest | include/flow/impl/driver/next.hpp:41-56 | primes if and only if the queue is non-empty, at window [oldest, oldest]; a retry leaves the window alone; everything left is newer than the window |
| DriverNext.CaptureDriver | include/flow/impl/driver/next.hpp:23-38 | `capture_driver_impl` is the Next capture on the queue |
| DriverNext.AbortDriver | include/flow/impl/driver/next.hpp:59-63 | `abort(t)` drops the data stamped before `t` |
| DriverThrottled.FirstReady | include/flow/impl/driver/throttled.hpp:57-67 | the scan stops at the first dispatch passing the throttle test, and every dispatch before it fails the test |
| DriverThrottled.Capture | include/flow/impl/driver/throttled.hpp:31-50 | a capture primes or retries; a prime windows on a single stamp, drops only what lies before the window and pops exactly one dispatch at or after it, so output and queue together are the queue from the window on; a retry keeps the caller's window and outputs and removes nothing |
| DriverThrottled.ThrottledCapturesFirstReady | include/flow/impl/driver/throttled.hpp:35-68 | primes if and only if some dispatch is at least a period after the previous capture (any dispatch when none was captured); it then drops the older ones, pops that dispatch, and windows on it; every skipped dispatch is within one period |
| DriverThrottled.ThrottledFirstCapture | include/flow/impl/driver/throttled.hpp:25 | a new or reset throttle primes at the oldest dispatch |
| DriverThrottled.ThrottledExample | include/flow/impl/driver/throttled.hpp:37-68 | on stamps 0, 10, 50, 120, 130 with period 100, captures take 0, then 120, then retry |
| DriverThrottled.DryCaptureDriver | include/flow/impl/driver/throttled.hpp:53-69 | the `dry_capture` scan loop computes the Throttled window and changes nothing |
| DriverThrottled.CaptureDriver | include/flow/impl/driver/throttled.hpp:31-50 | `capture_driver_impl` is the Throttled capture on the queue and remembers the captured stamp |
| DriverThrottled.ResetDriver | include/flow/impl/driver/throttled.hpp:79-83 | `reset` restores the minimum stamp |
| DriverThrottled.AbortDriver | include/flow/impl/driver/throttled.hpp:72-76 | `abort(t)` drops the data stamped before `t` |
| Followers.PolicyCapture | include/flow/impl/follower/follower.hpp:28 | a follower policy's own capture ends PRIMED, ABORT or RETRY |
| Followers.MonitorGatesCapture | include/flow/impl/follower/follower.hpp:24-34 | a capture ends SKIP_FRAME_QUEUE_PRECONDITION if and only if the monitor's `check` fails, and then changes nothing; otherwise it is the policy's result, changing only the queue |
| Followers.DefaultMonitorNeverSkips | include/flow/captor.hpp:54-58 | with the default monitor a follower never skips |
| Followers.DryCaptureAgrees | include/flow/impl/follower/follower.hpp:37-40 | with the monitor accepting, a follower's dry capture decides the same state and leaves the same queue as its capture, with no output |
| Followers.Locate | include/flow/impl/follower/before.hpp:31-61 | a follower's `locate` selects a range inside its queue |
| Followers.ExtractKeepsSuffix | include/flow/impl/follower/before.hpp:64-73 | an extraction keeps a suffix of the queue; only Latched changes policy state; the others output exactly their selection |
| Followers.CapturePolicy | include/flow/impl/follower/follower.hpp:22-34 | `capture_policy_impl` on a captor is the monitored follower capture |
| Followers.DryCapturePolicy | include/flow/impl/follower/follower.hpp:37-40 | `dry_capture_policy_impl` forwards to the policy |
| Followers.LocatePolicy | include/flow/impl/follower/before.hpp:31-61 | `locate` on a captor is the follower's locate, and changes nothing |
| Followers.ExtractPolicy | include/flow/impl/follower/before.hpp:64-73 | `extract` on a captor is the follower's extraction |
| Followers.AbortPolicy | include/flow/impl/follower/follower.hpp:43-46 | `abort_policy_impl` forwards to the policy: data before the policy's bound is dropped, or nothing when its abort is empty |
| Followers.ResetPolicy | include/flow/impl/follower/follower.hpp:49 | `reset_policy_impl` forwards to the policy: only Latched forgets its latch |
| FollowerBefore.Location | include/flow/impl/follower/before.hpp:31-61 | the extraction range lies inside the queue |
| FollowerBefore.BeforeSplitsAtBoundary | include/flow/impl/follower/before.hpp:36-60 | primes if and only if some dispatch is at or after `upper - delay`, else retries with nothing selected; on a prime the extraction outputs everything before the boundary and keeps everything at or after it (at least one) |
| FollowerBefore.LocateFollower | include/flow/impl/follower/before.hpp:31-61 | the `locate` loop computes the Before location |
| FollowerBefore.ExtractFollower | include/flow/impl/follower/before.hpp:64-73 | `extract` moves the selection and drops it with everything older |
| FollowerBefore.AbortFollower | include/flow/impl/follower/before.hpp:76-80 | `abort(t)` drops the data before `t - delay` |
| FollowerAnyBefore.Location | include/flow/impl/follower/any_before.hpp:44-62 | the extraction range lies inside the queue |
| FollowerAnyBefore.AnyBeforeSplitsAtBoundary | include/flow/impl/follower/any_before.hpp:44-62 | always primes, even on an empty queue; the extraction outputs exactly the dispatches before `upper - delay` and keeps everything at or after it |
| FollowerAnyBefore.LocateFollower | include/flow/impl/follower/any_before.hpp:44-62 | the `locate` loop computes the AnyBefore location |
| FollowerAnyBefore.ExtractFollower | include/flow/impl/follower/any_before.hpp:71-79 | `extract` moves the selection and drops it with everything older |
| FollowerAnyBefore.AbortFollower | include/flow/impl/follower/any_before.hpp:88-92 | `abort(t)` drops the data before `t - delay` |
| FollowerClosestBefore.FirstStop | include/flow/impl/follower/closest_before.hpp:54-67 | the scan stops at the first dispatch that aborts it or is captured, and passes over every earlier one |
| FollowerClosestBefore.DryCapture | include/flow/impl/follower/closest_before.hpp:46-80 | the dry capture ends PRIMED, ABORT or RETRY with no output; only PRIMED prunes, and it keeps exactly the queue from the dispatch where the scan stopped, so the chosen dispatch stays queued at the front, on any queue, ordered or not |
| FollowerClosestBefore.Capture | include/flow/impl/follower/closest_before.hpp:29-42 | a capture ends PRIMED, ABORT or RETRY; only a prime changes the queue: it keeps a suffix, outputs exactly one dispatch, which stays queued at the front, and drops only dispatches stamped before it |
| FollowerClosestBefore.ClosestBeforeSelects | include/flow/impl/follower/closest_before.hpp:46-80 | a prime captures the first dispatch within one period before `lower - delay` and drops everything older; an abort means a dispatch at or after the boundary came first, with nothing inside the period; a retry means everything is older than the period; neither changes the queue |
| FollowerClosestBefore.DryCaptureFollower | include/flow/impl/follower/closest_before.hpp:46-80 | the `dry_capture` loop computes the ClosestBefore dry capture |
| FollowerClosestBefore.CaptureFollower | include/flow/impl/follower/closest_before.hpp:29-42 | `capture` is the ClosestBefore capture on the queue |
| FollowerClosestBefore.AbortFollower | include/flow/impl/follower/closest_before.hpp:83-87 | `abort(t)` drops the data before `t - delay - period` |
| FollowerCountBefore.Location | include/flow/impl/follower/count_before.hpp:37-75 | the extraction range lies inside the queue |
| FollowerCountBefore.CountBeforeSelects | include/flow/impl/follower/count_before.hpp:42-74 | with k dispatches before `upper - delay`: prime if and only if k >= count, selecting the `count` newest of them; else abort if and only if something is at or after the boundary, else retry |
| FollowerCountBefore.LocateFollower | include/flow/impl/follower/count_before.hpp:37-75 | the counting loop computes the CountBefore location |
| FollowerCountBefore.ExtractFollower | include/flow/impl/follower/count_before.hpp:78-87 | `extract` copies the selection and drops only what is older |
| FollowerExact.Capture | flow/include/follower/impl/exact.hpp:26-46 | everything before `lower` is pruned whatever the outcome; a prime pops exactly one dispatch |
| FollowerExact.ExactSelects | flow/include/follower/impl/exact.hpp:30-45 | retry if and only if everything is before the window; prime if and only if some dispatch is inside it, outputting the oldest such; abort otherwise |
| FollowerExact.CaptureFollower | flow/include/follower/impl/exact.hpp:26-46 | `capture` is the Exact capture on the queue |
| FollowerExact.AbortFollower | flow/include/follower/impl/exact.hpp:49-53 | `abort(t)` drops the data before `t` |
| FollowerLatched.Location | include/flow/impl/follower/latched.hpp:41-86 | the extraction range lies inside the queue and the state is PRIMED, RETRY or ABORT |
| FollowerLatched.Extraction | include/flow/impl/follower/latched.hpp:96-113 | `extract` outputs at most one dispatch, and one exactly when the range is non-empty or a latch is held; a non-empty range latches its newest dispatch, outputs it and keeps it queued at the front of a suffix; an empty range keeps the queue and the latch; the output is always the latch |
| FollowerLatched.LatchedSelects | include/flow/impl/follower/latched.hpp:44-112 | retry if and only if the queue is empty with no latch; abort if and only if everything is after `lower - min_period` with no latch; a non-empty selection latches the newest qualifying dispatch and keeps it queued; a prime outputs exactly one dispatch |
| FollowerLatched.LatchedReemits | include/flow/impl/follower/latched.hpp:63-112 | once latched, with nothing newer qualifying, every capture primes and re-emits the latch unchanged |
| FollowerLatched.LocateFollower | include/flow/impl/follower/latched.hpp:41-86 | the `locate` loop computes the Latched location |
| FollowerLatched.ExtractFollower | include/flow/impl/follower/latched.hpp:96-113 | `extract` is the Latched extraction, updating the latch |
| FollowerLatched.ResetFollower | include/flow/impl/follower/latched.hpp:137-141 | `reset` clears the latch |
| FollowerMatchedStamp.Matches | include/flow/impl/follower/matched_stamp.hpp:52-71 | the scan's extraction range stays inside the scanned prefix |
| FollowerMatchedStamp.MatchesExactly | include/flow/impl/follower/matched_stamp.hpp:54-71 | on an ordered queue the range selects exactly the dispatches inside [lower, upper] |
| FollowerMatchedStamp.Location | include/flow/impl/follower/matched_stamp.hpp:39-75 | the extraction range lies inside the queue |
| FollowerMatchedStamp.MatchedStampSelects | include/flow/impl/follower/matched_stamp.hpp:43-74 | prime if and only if some dispatch lies inside the window, outputting exactly those and dropping only older data; abort if and only if the oldest is after `upper`; otherwise nothing is selected |
| FollowerMatchedStamp.LocateFollower | include/flow/impl/follower/matched_stamp.hpp:39-75 | the index loop computes the MatchedStamp location |
| FollowerMatchedStamp.ExtractFollower | include/flow/impl/follower/matched_stamp.hpp:85-93 | `extract` copies the selection and drops only what is older |
| FollowerMatchedStamp.AbortFollower | include/flow/impl/follower/matched_stamp.hpp:103-107 | `abort(t)` drops the data before `t` |
| FollowerRanged.AfterFirst | include/flow/impl/follower/ranged.hpp:106-116 | `find_after_first` finds the first dispatch at or after `lower - delay` |
| FollowerRanged.BeforeLast | include/flow/impl/follower/ranged.hpp:118-130 | `find_before_last` finds the first dispatch after `upper - delay`, scanning from `after_first` (from the front when that is the end) |
| FollowerRanged.DryCapture | include/flow/impl/follower/ranged.hpp:75-104 | the dry capture ends PRIMED, ABORT or RETRY with no output, and only PRIMED prunes |
| FollowerRanged.Capture | include/flow/impl/follower/ranged.hpp:31-72 | the capture decides and prunes exactly like the dry capture, and outputs nothing unless PRIMED |
| FollowerRanged.ValidCopiesInOrder | include/flow/impl/follower/ranged.hpp:61-66 | over a valid window the range `capture` copies is never reversed |
| FollowerRanged.RangedReversedExample | include/flow/impl/follower/ranged.hpp:31-72 | a reversed window can still prime: with no delay, window (10, 5) over stamps 4 and 12 outputs both, and the dry capture agrees |
| FollowerRanged.RangedStates | include/flow/impl/follower/ranged.hpp:37-59 | abort if and only if the queue starts at or after `lower - delay`; retry if and only if it is empty, or nothing has arrived after `upper - delay` |
| FollowerRanged.RangedBrackets | include/flow/impl/follower/ranged.hpp:61-66 | a prime outputs the last dispatch before `lower - delay`, every dispatch inside the shifted window, and the first one after `upper - delay`, in order |
| FollowerRanged.RangedKeepsOutput | include/flow/impl/follower/ranged.hpp:66-69 | a prime drops only what is older than its first output, so the whole output stays queued |
| FollowerRanged.DryCaptureFollower | include/flow/impl/follower/ranged.hpp:75-104 | `dry_capture` is the Ranged dry capture on the queue |
| FollowerRanged.CaptureFollower | include/flow/impl/follower/ranged.hpp:31-72 | `capture` is the Ranged capture on the queue |
| Synchronizer.DefaultResult | include/flow/synchronizer.hpp:34-39 | a default result is RETRY, not truthy, over an invalid window |
| Synchronizer.LocateLead | include/flow/impl/synchronizer.hpp:119-139 | a driver lead's extraction range lies inside its queue |
| Synchronizer.LocateFollowers | include/flow/impl/synchronizer.hpp:141-150 | every follower gets an extraction range inside its own queue |
| Synchronizer.Sync | include/flow/impl/synchronizer.hpp:280-332 | `capture` yields one result per follower, and a lead result exactly for a driver lead |
| Synchronizer.FailureIsFinal | include/flow/impl/synchronizer.hpp:146-149 | once the state is not PRIMED, no later follower is located: the state is kept and every range is empty |
| Synchronizer.PrimedIffAllPrimed | include/flow/impl/synchronizer.hpp:141-150 | locating ends PRIMED if and only if every follower locates PRIMED, each then keeping its own range |
| Synchronizer.FirstFailureDecides | include/flow/impl/synchronizer.hpp:141-150 | the first follower that does not prime decides the state; it and those before it keep their ranges, and those after get empty ones |
| Synchronizer.SyncPrimedIff | include/flow/impl/synchronizer.hpp:312-331 | capture succeeds if and only if the lead primes and every follower primes against its window |
| Synchronizer.SyncRetryTouchesNothing | include/flow/impl/synchronizer.hpp:318-322 | on RETRY no captor outputs anything or changes |
| Synchronizer.LowerBoundGuard | include/flow/impl/synchronizer.hpp:119-139 | a fixed window aborts exactly when it ends before the lower bound; an aborted or lower-bound-exceeded capture still consumes the driver's batch, and every follower outputs nothing except a Latched follower holding a latch, which outputs that latch |
| Synchronizer.SyncSteps | include/flow/impl/synchronizer.hpp:312-331 | the result is the followers' final state over the lead's window; RETRY leaves everything, otherwise every captor extracts its range |
| Synchronizer.AcceptedIsValid | include/flow/impl/synchronizer.hpp:266-274 | an accepted captor sequence is a valid one |
| Synchronizer.LocateFollowersInOrder | include/flow/impl/synchronizer.hpp:141-150 | the locate loop over the followers, in order, computes the follower location |
| Synchronizer.ExtractFollowers | include/flow/impl/synchronizer.hpp:201-210 | the extract loop extracts every follower's own range and reports the result to its monitor once |
| Synchronizer.ExtractFollower | include/flow/impl/synchronizer.hpp:201-210 | one follower extracts its range, then its monitor gets the window and state |
| Synchronizer.ExtractLead | include/flow/impl/synchronizer.hpp:201-210 | the driver lead extracts its range, then its monitor gets the window and state |
| Synchronizer.Capture | include/flow/impl/synchronizer.hpp:280-332 | `capture` is `Sync` on the captors' states before the call: its result, its outputs, the captors' new states and the monitor reports |
| Synchronizer.LocateAll | include/flow/impl/synchronizer.hpp:312-316 | locate the lead, then the followers against its window, changing nothing |
| Synchronizer.ExtractEvery | include/flow/impl/synchronizer.hpp:324-329 | every captor extracts its own range and reports the result to its monitor |
| Synchronizer.RemoveAll | include/flow/impl/synchronizer.hpp:348-364 | `remove(t)` drops data before `t` from the driver's queue only |
| Synchronizer.AbortAll | include/flow/impl/synchronizer.hpp:367-383 | `abort(t)` aborts every captor of the sequence |
| Synchronizer.ResetAll | include/flow/impl/synchronizer.hpp:386-400 | `reset` resets every captor of the sequence |

## Left out

- Blocking (lockable) and polling captors: condition-variable waits, mutexes and `wait_until` timeouts are
  concurrency. Only the single-threaded captor is modelled, and the synchronizer's `timeout` argument is dropped.
- Clocks and chrono stamps: stamps are unbounded integers.
- Overflow: `range.upper - delay`, `stamp - previous_stamp_` and `stamp + period` are unbounded-integer arithmetic.
  The source computes them in the stamp type, where they can overflow.
- Compile-time machinery is not modelled: tuple iteration (`apply_every`), the CRTP bases and the
  `captor_stamp_types_consistent` trait. The captor tuple is a lead plus a sequence of followers; `Shaped` states
  the driver-first rule of `captor_sequence_valid`, and all captors share one stamp type by construction.
- `StampTraits`' check that stamps are integral and not `bool`, and `is_capture_range`, are type-level checks with
  no runtime behaviour.
- Value types: one generic value type per captor; the per-captor output iterators become returned sequences.
- Queue monitors are foreign code. A custom `check` is a total function value, and every `update` call is recorded
  in the captor's `monitorLog`. The default monitor accepts everything, and its `update` does nothing.
- Captors.Check, Followers.MonitorGatesCapture: `check` and `update` receive the queue by mutable reference
  (include/flow/captor.hpp, lines 55 and 66), so a custom monitor could change the queue. The model gives `check`
  only the queue's contents and `update` no queue at all, so a monitor never changes the queue. The "nothing
  changes" halves of MonitorGatesCapture and SyncRetryTouchesNothing hold only under this restriction.
- Synchronizer.Capture, Synchronizer.Accepts: the captors must be distinct objects over distinct queues. The
  source does not enforce this, and passing one captor twice is legal there; the model does not cover that
  aliasing.
- Synchronizer leads: the synchronizer admits a fixed window or a Batch driver as lead, and only
  locate/extract followers. In the implementation headers modelled here, only Batch, Before, AnyBefore,
  CountBefore, Latched and MatchedStamp define `locate`/`extract`; the public headers also declare
  `locate_*_impl` for ClosestBefore, Ranged, Next and Chunk, with no definition in those implementation headers.
- `ExtractionRange`, `copy`, `move` and `remove_first_n` are used by the policies but defined outside the headers
  modelled here. They are
  modelled as a `{first, last}` index pair (empty by default, truthy when `first < last`), a slice, a slice, and
  dropping the `n` oldest.
- Captors.Captor.constructor: requires a parameter the policy constructor accepts. The throwing constructors are
  modelled by `ConstructionError`, not as exceptions.
- DriverChunk.Window, DriverNext.Window and DriverThrottled.Window carry no contract of their own. Their
  properties are the lemmas ChunkConsumes, NextCapturesOldest and ThrottledCapturesFirstReady.
- DriverThrottled.NextPrevious, the `previous_stamp_` update, carries no contract of its own; its effect is stated
  by DriverThrottled.CaptureDriver and ThrottledExample.
- Synchronizer.Reported, what each monitor is told, carries no contract of its own; its effect is stated by
  Synchronizer.Capture, SyncRetryTouchesNothing and ExtractEvery.
- Captors.Captor.GetCapacity, Captors.Captor.AvailableStampRange and DispatchQueues.DispatchQueue.Empty,
  OldestStamp and NewestStamp are accessors without a contract of their own. SetCapacity and LimitedKeepsNewest
  state what the capacity means, and AvailableStampRangeSpans states the available range.
- CaptorNoLock.CaptureStep, DryCaptureStep, AbortStep and ResetStep (the captor's `capture_impl`,
  `dry_capture_impl`, `abort` and `reset_impl`) carry no contract of their own. The methods CaptorNoLock.Capture,
  DryCapture, Abort and Reset are proved equal to them, and ResetLeavesNothing, AbortDropsBelowBound and
  OnlyFollowersSkip state what they do.
- Drivers.Capture, Drivers.DryCapture, Drivers.Extract, Followers.Capture, Followers.DryCapture and
  Followers.Extract (the `*_policy_impl` forwarding) carry no contract of their own. Their properties are
  Drivers.CaptureConsumesWindow and DryCaptureAgrees, and Followers.MonitorGatesCapture, DryCaptureAgrees and
  ExtractKeepsSuffix.
- DispatchQueues.BeforeAsWritten, `before(t)` as written, carries no contract of its own: it is the as-written
  half of the finding below, exhibited by BeforeAsWrittenMissesNewest and BeforeAsWrittenBeforeBegin.
- FollowerRanged.Capture: requires that the iterator range it copies is not reversed (`CopyInOrder`). That range
  is reversed only for a window with `lower > upper` where no dispatch is at or after `lower - delay` and one after
  `upper - delay` lies more than one place before the end; there `std::copy` over a reversed range is undefined
  behaviour. Every other window, reversed ones included, is modelled. RangedStates, RangedBrackets and
  RangedKeepsOutput are stated for valid windows only.
- FollowerExact: follows the code, where the queue is pruned before the outcome is decided, so RETRY and ABORT
  also remove data. The legacy Exact has no `dry_capture`.
- AnyAtOrBefore is not part of this model: only its declaration and tests exist.
- The legacy Count follower is not part of this model. It calls queue searches that `DispatchQueue` does not define.
- The legacy parallel policy tree is not part of this model.
- `DispatchQueue`'s iterator accessors are represented by indices into the queue's contents.

## Findings

| source | as written | input that shows it | evidently intended | confidence | as-written member | corrected member |
|---|---|---|---|---|---|---|
| include/flow/impl/dispatch_queue.hpp:66-74 | `before(t)` finds the first element at or after `t` and returns the one before it; when none is found it returns `end()`, and when the first element already qualifies it steps before `begin()` | stamps 5, 6, 7 and `t = 8` give `end()` instead of stamp 7; stamp 5 and `t = 5` give `std::prev(begin())` | the newest element stamped before `t`, or none, as `rbefore(t)` gives | not executed | DispatchQueues.BeforeAsWritten (DispatchQueues.BeforeAsWrittenMissesNewest, DispatchQueues.BeforeAsWrittenBeforeBegin) | DispatchQueues.BeforeIndex (DispatchQueues.BeforeIndexIsRBefore) |
