# Payment-option carousel and intent-status poller, in Dafny

This project models two small pieces of the Stripe Android SDK and proves
properties of them.

**The payment-option carousel of the payment sheet** (`PaymentOptionsUI.kt`),
module `PaymentOptions`:

- the list of carousel items: add-card, then Google Pay and Link when they are
  enabled, then the saved payment methods, with the remembered default moved
  to the front;
- how an item becomes a `PaymentSelection`;
- how the selected index is found, both from the current selection and from
  the remembered `SavedSelection`, and how the two are combined;
- when a click on an item produces a selection update;
- the one-off notification of the initially selected item.

Kotlin's `indexOfFirst` is `Seqs.IndexOfFirst`.

**The intent-status poller** (`DefaultIntentStatusPoller.kt`), modules
`Suspension`, `IntentStatusPoller` and `PollerTraces`:

- the backoff delay;
- the polling loop;
- the failure-tolerant fetch;
- `forcePoll`, `cancel`, `startPolling`, `pausePolling` and `resumePolling`;
- the `PollingSuspender` pause gate, a rendezvous channel of capacity 0 that
  `resume` feeds with `trySend`.

Coroutines are modelled as jobs that a scheduler advances one step at a time
(`IntentStatusPoller.Step`). A step runs a job from one suspension point to
the next: its launch, the backoff delay, or the wait on the pause channel.
`PollerTraces.Run` applies any interleaving of owner calls and job steps.

The repository is a script of fetch results, consumed in order. When the
script is exhausted the fetch fails, and a failed fetch reads as `null`
(`None`). This matches the test suite's fake repository, whose `removeFirst`
throws on an empty queue, and `runCatching`, which turns the throw into `null`.

Every value written to `state` is logged in `writes`, and every delay waited
out is logged in `delays`. Time itself is not modelled.

The pure loop `IntentStatusPoller.PerformPolling` is the reference definition.
`PollerTraces.SteppingAlone` and `PollerTraces.PollingAloneAgreesWithLoop`
prove that a job stepped on its own, while polling is not paused, does
exactly what that loop does.

Five behaviours of the code that a caller may not expect:

- `startPolling` has no guard. Starting while a job runs launches a second
  job and overwrites the handle. The earlier job keeps polling and can no
  longer be cancelled (`PollerTraces.RestartOrphansRunningJob`).
- `resume` is not latched. A resume sent while no job waits on the pause
  channel is dropped, so the next job to reach the checkpoint still blocks
  (`PollerTraces.ResumeIsNotLatched`).
- A second `pausePolling` while the loop already waits installs a new
  channel. The waiting job stays blocked on the old channel for good, unless
  it is cancelled (`PollerTraces.StrandedWaiter`).
- A job that finishes calls `cancel()`, which cancels whichever job the handle
  names, possibly a newer one (`IntentStatusPoller.FetchAndDecide`,
  `PollerTraces.FinishingJobCancelsNewerJob`).
- A `pausePolling` issued after a resume has released the waiting job, but
  before that job runs on, is lost. On its way out of the checkpoint the job
  sets the channel back to `null`, wiping the new pause, and then fetches and
  writes (`PollerTraces.PauseAfterResumeIsLost`).

## Model

| member | source | states |
|---|---|---|
| Seqs.IndexOfFirst | paymentsheet/src/main/java/com/stripe/android/paymentsheet/PaymentOptionsUI.kt:305-312 | the result is -1 exactly when no element satisfies the predicate; otherwise it is the lowest index whose element does |
| PaymentOptions.SortedPaymentMethods | paymentsheet/src/main/java/com/stripe/android/paymentsheet/PaymentOptionsUI.kt:301-323 | the list keeps its length; when the saved selection names an id some payment method has, the list starts with a payment method of that id |
| PaymentOptions.SortedMovesDefaultToFront | paymentsheet/src/main/java/com/stripe/android/paymentsheet/PaymentOptionsUI.kt:301-323 | when the saved selection names an id first held at position k, that payment method comes first; those before k shift back by one; those after k keep their places |
| PaymentOptions.SortedUnchangedWithoutDefault | paymentsheet/src/main/java/com/stripe/android/paymentsheet/PaymentOptionsUI.kt:305-322 | when the saved selection is not a payment method, or names an id no payment method has, the list comes back unchanged |
| PaymentOptions.SortedIsPermutation | paymentsheet/src/main/java/com/stripe/android/paymentsheet/PaymentOptionsUI.kt:313-319 | sorting is a permutation: the multiset of payment methods is unchanged |
| PaymentOptions.SortedIdempotent | paymentsheet/src/main/java/com/stripe/android/paymentsheet/PaymentOptionsUI.kt:301-323 | sorting an already sorted list changes nothing |
| PaymentOptions.LeadingItems | paymentsheet/src/main/java/com/stripe/android/paymentsheet/PaymentOptionsUI.kt:44-53 | add-card comes first; Google Pay comes second when enabled; Link comes last when enabled; every later entry is an enabled Google Pay or Link item |
| PaymentOptions.PaymentOptionItems | paymentsheet/src/main/java/com/stripe/android/paymentsheet/PaymentOptionsUI.kt:43-58 | the list is as long as the leading items plus the payment methods; add-card comes first, then Google Pay and Link when enabled; entry offset+i is the i-th sorted payment method |
| PaymentOptions.ItemsAfterFirst | paymentsheet/src/main/java/com/stripe/android/paymentsheet/PaymentOptionsUI.kt:44-57 | every item after the first is an enabled Google Pay item, an enabled Link item, or a saved payment method |
| PaymentOptions.ItemsContents | paymentsheet/src/main/java/com/stripe/android/paymentsheet/PaymentOptionsUI.kt:44-54 | add-card appears only in front; Google Pay appears iff it is enabled; Link appears iff it is enabled |
| PaymentOptions.ItemsKeepPaymentMethods | paymentsheet/src/main/java/com/stripe/android/paymentsheet/PaymentOptionsUI.kt:55-57 | the payment methods behind the items are, as a multiset, exactly the input payment methods |
| PaymentOptions.ToPaymentSelection | paymentsheet/src/main/java/com/stripe/android/paymentsheet/PaymentOptionsUI.kt:325-340 | only add-card gives no selection; every other item gives a selection that picks it out; a saved payment method gives `Saved` of itself |
| PaymentOptions.FindSelectedPosition | paymentsheet/src/main/java/com/stripe/android/paymentsheet/PaymentOptionsUI.kt:342-360 | the result is -1 iff no item matches the selection; otherwise it is the first matching item; a selection of a new payment method never matches |
| PaymentOptions.SelectionOfItemIsFound | paymentsheet/src/main/java/com/stripe/android/paymentsheet/PaymentOptionsUI.kt:325-360 | round trip: the selection made from item i is found at or before i; for Google Pay and Link the item found is the same item; for a saved payment method it has the same id |
| PaymentOptions.FindInitialSelectedPosition | paymentsheet/src/main/java/com/stripe/android/paymentsheet/PaymentOptionsUI.kt:362-394 | the result is `NO_POSITION` iff every item is add-card; otherwise it is the first item the remembered selection names, else the first Google Pay, else the first Link, else the first saved payment method |
| PaymentOptions.SelectedItemIndex | paymentsheet/src/main/java/com/stripe/android/paymentsheet/PaymentOptionsUI.kt:84-85 | with a current selection, the index is -1 iff nothing matches it, else it is the first matching item; without one, the index is exactly `findInitialSelectedPosition` of the remembered selection (-1 iff every item is add-card) |
| PaymentOptions.CurrentSelectionHasNoFallback | paymentsheet/src/main/java/com/stripe/android/paymentsheet/PaymentOptionsUI.kt:84-85 | a current selection that matches nothing gives -1, even when the remembered selection would find an item |
| PaymentOptions.DefaultPaymentMethodIsInitiallySelected | paymentsheet/src/main/java/com/stripe/android/paymentsheet/PaymentOptionsUI.kt:362-383 | with no current selection, the remembered default payment method is selected, at the position right after add-card, Google Pay and Link |
| PaymentOptions.HandleSelection | paymentsheet/src/main/java/com/stripe/android/paymentsheet/PaymentOptionsUI.kt:132-142 | a click updates iff not editing and the item is not already selected (or re-clicking is allowed); already selected means its first occurrence is at the selected index, or it is absent and the index is -1; the update is a user selection of that item |
| PaymentOptions.InitialSelectionUpdate | paymentsheet/src/main/java/com/stripe/android/paymentsheet/PaymentOptionsUI.kt:123-130 | a notification is sent iff the selected index is a valid index; it is not a user selection, and its selection is the selected item's `toPaymentSelection` (none for add-card), which picks that item out |
| PaymentOptions.InitialSelectionIsStable | paymentsheet/src/main/java/com/stripe/android/paymentsheet/PaymentOptionsUI.kt:123-130 | round trip: with no current selection, a notification is sent iff some item is not add-card; once the view model holds the selection sent, the selected index it leads to is the index that was notified |
| Suspension.WaitIfSuspended | payments-core/src/main/java/com/stripe/android/polling/DefaultIntentStatusPoller.kt:102-108 | the loop passes iff no channel is installed; otherwise it blocks on the installed channel |
| Suspension.CompleteWait | payments-core/src/main/java/com/stripe/android/polling/DefaultIntentStatusPoller.kt:105-106 | after a wait the channel field is empty, whichever channel it held |
| Suspension.Suspend | payments-core/src/main/java/com/stripe/android/polling/DefaultIntentStatusPoller.kt:115-118 | a channel is installed that differs from every channel installed before |
| Suspension.ResumeTarget | payments-core/src/main/java/com/stripe/android/polling/DefaultIntentStatusPoller.kt:110-113 | the signal reaches the first waiter blocked on the current channel; it is dropped (-1) iff there is no channel or nobody waits on it |
| IntentStatusPoller.DelayMillis | payments-core/src/main/java/com/stripe/android/polling/DefaultIntentStatusPoller.kt:121-124 | from the first attempt on, every delay is at least 4 seconds |
| IntentStatusPoller.DelaySchedule | payments-core/src/main/java/com/stripe/android/polling/DefaultIntentStatusPoller.kt:121-124 | attempts 1, 2 and 3 wait 4, 9 and 16 seconds |
| IntentStatusPoller.DelayGrowsWithAttempt | payments-core/src/main/java/com/stripe/android/polling/DefaultIntentStatusPoller.kt:121-124 | every delay is at least 4 seconds, and a later attempt waits strictly longer |
| IntentStatusPoller.FetchConsumesOne | payments-core/src/main/java/com/stripe/android/polling/DefaultIntentStatusPoller.kt:65-77 | a fetch consumes exactly one result: afterwards the script delivers what it would have delivered one fetch later; an exhausted script gives `null` and stays exhausted |
| IntentStatusPoller.PerformPolling | payments-core/src/main/java/com/stripe/android/polling/DefaultIntentStatusPoller.kt:42-63 | the loop makes at most maxRetries-attempt+1 fetches, and at least one when any attempt is left; the i-th write is the i-th fetch result; every write but the last is "requires action"; stopping before the last attempt means the last write is not "requires action" |
| IntentStatusPoller.PerformPollingDelays | payments-core/src/main/java/com/stripe/android/polling/DefaultIntentStatusPoller.kt:44-47 | the delay before the i-th fetch is the delay of attempt `attempt + i` |
| IntentStatusPoller.NewPoller | payments-core/src/main/java/com/stripe/android/polling/DefaultIntentStatusPoller.kt:30-34 | a new poller has `state` null, no job, no handle and no pause channel |
| IntentStatusPoller.StartPolling | payments-core/src/main/java/com/stripe/android/polling/DefaultIntentStatusPoller.kt:36-40 | a new job is launched and the handle names it; earlier jobs and everything else are untouched |
| IntentStatusPoller.Cancel | payments-core/src/main/java/com/stripe/android/polling/DefaultIntentStatusPoller.kt:91-94 | only the job the handle names can change, and only if it was running: it becomes cancelled; the handle is cleared |
| IntentStatusPoller.PausePolling | payments-core/src/main/java/com/stripe/android/polling/DefaultIntentStatusPoller.kt:87-89 | a channel is installed that no job is already waiting on; nothing else changes |
| IntentStatusPoller.ResumePolling | payments-core/src/main/java/com/stripe/android/polling/DefaultIntentStatusPoller.kt:83-85 | nothing changes when no job waits on the current channel; otherwise the first job waiting on it is released at the same attempt, and no other job changes |
| IntentStatusPoller.ForcePoll | payments-core/src/main/java/com/stripe/android/polling/DefaultIntentStatusPoller.kt:79-81 | returns the next fetch result and consumes it; `state`, the jobs and the pause gate are unchanged |
| IntentStatusPoller.LoopHead | payments-core/src/main/java/com/stripe/android/polling/DefaultIntentStatusPoller.kt:43-44 | the job sleeps before the given attempt iff it is within maxRetries, and has finished otherwise; no other job changes |
| IntentStatusPoller.FetchAndDecide | payments-core/src/main/java/com/stripe/android/polling/DefaultIntentStatusPoller.kt:52-61 | writes the next fetch result to `state`; anything but "requires action" finishes the job, cancels the running job the handle names (possibly another one) and clears the handle, leaving every job other than these two unchanged; "requires action" moves to the next attempt, or finishes after the last, leaving the handle and every other job unchanged |
| IntentStatusPoller.Step | payments-core/src/main/java/com/stripe/android/polling/DefaultIntentStatusPoller.kt:42-63 | one step keeps the invariant and writes at most one value, the next fetch result; a job that wrote anything but "requires action" has finished; the attempt advances only with a "requires action" write; the only other job that can change is the one the handle names, and only by being cancelled in a step that wrote something other than "requires action"; an ended job does nothing |
| PollerTraces.Run | payments-core/src/main/java/com/stripe/android/polling/DefaultIntentStatusPoller.kt:30-31 | under any interleaving of calls and steps the invariant holds, and `state` is the last value written (null before any write) |
| PollerTraces.SteppingAlone | payments-core/src/main/java/com/stripe/android/polling/DefaultIntentStatusPoller.kt:42-63 | a job stepped on its own, while not paused, writes exactly the values of the pure loop, after exactly its delays, and then ends |
| PollerTraces.PollingAloneAgreesWithLoop | payments-core/src/main/java/com/stripe/android/polling/DefaultIntentStatusPoller.kt:36-63 | a new poller started and left alone publishes exactly the pure loop's results, after its delays, and ends with `state` holding the last of them |
| PollerTraces.NoWritesWhilePaused | payments-core/src/main/java/com/stripe/android/polling/DefaultIntentStatusPoller.kt:102-108 | from a pause with no job already released by an earlier resume, and until the next resume, no value is written, whatever else is called or stepped |
| PollerTraces.PauseBlocksAtCheckpoint | payments-core/src/main/java/com/stripe/android/polling/DefaultIntentStatusPoller.kt:47-49 | a job that finishes its delay while paused blocks on the current channel without fetching |
| PollerTraces.ResumeReachesWaiter | payments-core/src/main/java/com/stripe/android/polling/DefaultIntentStatusPoller.kt:110-113 | a resume releases the first job waiting on the current channel; that job's next step clears the channel and writes the next fetch result |
| PollerTraces.ResumeIsNotLatched | payments-core/src/main/java/com/stripe/android/polling/DefaultIntentStatusPoller.kt:110-113 | a resume with nobody waiting changes nothing, and a job reaching the checkpoint afterwards still blocks |
| PollerTraces.StrandedWaiter | payments-core/src/main/java/com/stripe/android/polling/DefaultIntentStatusPoller.kt:102-118 | a job blocked on a channel that is no longer the current one stays blocked, or is cancelled, whatever events follow |
| PollerTraces.CancelIsIdempotent | payments-core/src/main/java/com/stripe/android/polling/DefaultIntentStatusPoller.kt:91-94 | cancelling twice is the same as cancelling once, and the handle is cleared |
| PollerTraces.CancelStopsWrites | payments-core/src/main/java/com/stripe/android/polling/DefaultIntentStatusPoller.kt:91-94 | when only the handle's job was running, nothing is written after `cancel` until polling is started again |
| PollerTraces.RestartOrphansRunningJob | payments-core/src/main/java/com/stripe/android/polling/DefaultIntentStatusPoller.kt:36-40 | after starting twice and cancelling, the second job is cancelled but the first still polls and writes |
| PollerTraces.PauseAfterResumeIsLost | payments-core/src/main/java/com/stripe/android/polling/DefaultIntentStatusPoller.kt:102-118 | a pause issued after a resume has released the waiting job is cleared when that job passes the checkpoint, and the job fetches and writes anyway |
| PollerTraces.FinishingJobCancelsNewerJob | payments-core/src/main/java/com/stripe/android/polling/DefaultIntentStatusPoller.kt:55-58 | after starting twice, the first job's non-"requires action" result cancels the second job, which has fetched nothing, and clears the handle |
| PollerTraces.SuccessOnFirstPoll | payments-core/src/test/java/com/stripe/android/polling/DefaultIntentStatusPollerTest.kt:25-41 | `state` goes from null to succeeded after one 4-second delay, and the job ends |
| PollerTraces.ContinuesOnRequiresAction | payments-core/src/test/java/com/stripe/android/polling/DefaultIntentStatusPollerTest.kt:43-66 | `state` receives requires-action and then succeeded, after delays of 4 and 9 seconds |
| PollerTraces.CancelAfterFirstResult | payments-core/src/test/java/com/stripe/android/polling/DefaultIntentStatusPollerTest.kt:68-93 | after a cancel that follows the first requires-action, nothing more is written and the job is cancelled |
| PollerTraces.PauseHoldsUntilResume | payments-core/src/test/java/com/stripe/android/polling/DefaultIntentStatusPollerTest.kt:95-124 | after a pause, a job that has slept through its delay writes nothing; after a resume, succeeded is written |

## Left out

- Compose rendering, `rememberItemWidth`, the `PaymentOptions` view-model wiring (lines 62-75 and 86-107; the item list and selected index at lines 76-85 are modelled) and item layout are left out. Only the list logic is modelled.
- `remember` memoisation is left out. Each function here recomputes from its arguments. In the source, the `handleSelection` lambda is remembered without keys, so it can see stale `items`, `selectedItemIndex` and `isEditing` values after recomposition; the model uses the current values.
- The caller-side `viewModel is PaymentOptionsViewModel &&` guards on Google Pay and Link (lines 78-79) are left out. The model takes the resulting flags as inputs.
- PaymentOptions.PaymentMethod: only the id matters. All other fields of the record are folded into one `details` string.
- PaymentOptions.FindInitialSelectedPosition: the source accepts a nullable `SavedSelection`. Only non-null selections are modelled; `null` behaves like `SavedSelection.None`.
- PaymentOptions.Selects: follows the source's id comparison between nullable ids. A saved selection whose payment method has no id therefore picks out the first saved payment method that has no id.
- Real time, the coroutine dispatcher, the logger and `PaymentConfiguration` are left out. Delays are recorded as numbers, and the scheduler is the order of events.
- A fetch is atomic, so cancellation during an in-flight fetch is not modelled. In the source, `runCatching` would also catch the `CancellationException`, and `null` would then be written to `state`.
- `StateFlow` drops a write equal to the current value. `writes` logs every assignment, and `state` holds the last one, which is the same value either way.
- IntentStatusPoller.DelayMillis: computes (1 + attempt)^2 seconds exactly, but its own contract states only the 4-second lower bound; the growth and the first values are stated by `DelayGrowsWithAttempt` and `DelaySchedule`. It does not model the `Double` power, the `toLong` truncation or `Long` overflow, which only matter for attempt counts far beyond any configuration. Nor does the model wrap the `Int` counter `attemptedRetries` (DefaultIntentStatusPoller.kt:61): with `maxRetries` equal to `Int.MAX_VALUE` the Kotlin counter would wrap and the loop would never end, but only after 2^31 attempts; the model's counter is unbounded and that loop ends.
- Suspension.ResumeTarget: when several jobs wait on the same channel, the signal goes to the earliest-launched one. Kotlin channels serve waiters in the order they started waiting. Only jobs orphaned by a second `startPolling` can wait together.
- `forcePoll` is one atomic fetch. It does not interleave with a job's fetch, which is also atomic.
- The `IntentStatusPoller` interface, dependency injection and the other polling-related context files are left out. They hold no logic beyond the class modelled here.
