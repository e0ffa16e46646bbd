# 3D printer job queue — Dafny model

This project models the core of a small Java system that takes 3D-print
job requests, prices them, and keeps them in a bounded first-in, first-out
queue:

- **Print jobs** (`Jobs`, from `PrintJob.java`). A print job is an
  immutable record. Its identifier comes from a process-wide counter that
  starts at 100 and advances by one at every construction. Its gross price
  is the raw-material rate (PLA 0.05, ABS 0.06, Nylon 0.07, anything else
  0) times the volume times the quantity. Its total price is never below
  the base price of 60.50.
- **Processed print jobs** (`ProcessedJobs`, from `ProcessedPrintJob.java`).
  A processed job is a print job that also carries a list of
  post-processing choices, and it adds Acrylic (0.09) to the rate table.
  Each item is charged per choice: "UV Curing" 0.01·volume,
  "UV Protective Coating" 0.005·volume, "Polishing" 0.50, anything else
  nothing. Orders of more than 500 items get 10% off, but the total never
  falls below the base price. The module also builds the
  "(1)choice (2)choice " listing.
- **The print queue** (`Queues`, from `PrintQueue.java`). The queue is a
  class over a fixed-length array of optional jobs:
  - admission fills every empty slot among the first Count + 1 (Count being
    the number of occupied slots); on a prefix-shaped queue that is only the
    slot after the last job;
  - removal shifts every slot one place forward and empties the slot whose
    index is the number of jobs in slots 1 onwards (on a prefix-shaped
    queue, the slot after the survivors);
  - counting, fullness, emptiness and search are linear scans.

How the Java program maps onto Dafny:

- The two Java classes become one datatype, `PrintJob`. Its field
  `postProcessingChoices` is `None` for a plain job and `Some(choices)` for
  a processed one.
- The overridden pricing methods are dispatched by `ProcessedJobs.GrossPrice`
  and `ProcessedJobs.TotalPrice`.
- Dafny has no mutable statics, so the static counter becomes an
  `IdAllocator` object that is passed to the two job constructors.
- Prices are exact `real`s.
- The queue is modelled on the array itself:
  - `AddToQueue` and `RemoveFromQueue` are proved equal to the functions
    `AddSlots` and `RemoveSlots`, which describe the code on any array
    contents;
  - on a prefix-shaped array (no occupied slot after an empty one), lemmas
    prove that admission appends to the contents and removal drops the head;
  - `RunIsFifo` proves that any run of admissions and removals keeps the
    array prefix-shaped and releases jobs in arrival order.

Some behaviour of the code is worth stating because one might expect
otherwise:
- Admission writes the job into every empty slot at an index up to the
  job count, not just the first. On an array with gaps one job lands in
  several slots: `[empty, empty, a, b]` becomes `[j, j, a, b]`. On a
  prefix-shaped queue only the slot after the last job is written.
- On an array with gaps, removal can erase a job that was not at the
  front: `[a, empty, b, empty]` becomes all empty.
- Admission into a full queue reads `printQueue[length]`, which throws
  ArrayIndexOutOfBoundsException before any slot is written. The model
  makes "not full" a precondition of `AddToQueue`.
- Removal on a queue with no slots writes `printQueue[0]`, which throws the
  same exception. The model makes "at least one slot" a precondition of
  `RemoveFromQueue`.
- The search reports the *last* matching slot, not the first.
- Unknown plastics and post-processing choices cost nothing; they are not
  rejected.
- Removal does not return the removed job.

## Model

| member | source | states |
|---|---|---|
| `Jobs.RawPrice` | PrintJob.java:102-117 | the rate is never negative, and it is positive exactly for PLA, ABS and Nylon |
| `Jobs.StandardGrossPrice` | PrintJob.java:102-121 | its body is the formula rate(plastic) · volume · quantity; the contract states that it is never negative for non-negative volume and quantity, and is 0 for an unrecognised plastic, a zero volume or a zero quantity |
| `Jobs.StandardTotalPrice` | PrintJob.java:128-141 | the total is at least the base price and at least the gross price, and it is one of the two |
| `Jobs.StandardTotalIsMax` | PrintJob.java:128-141 | the total is max(gross, 60.50); a gross price of at least 60.50 is billed as is |
| `Jobs.UnknownPlasticPaysBasePrice` | PrintJob.java:105-119 | an unrecognised plastic gives gross price 0 and total 60.50 |
| `Jobs.SmallPlaJobExample` | PrintJob.java:119-139 | 10 PLA items of 20 mm3 cost 10.0 gross and are billed 60.50 |
| `Jobs.SequentialIsStrictlyIncreasing` | PrintJob.java:69 | identifiers taken from the counter in order are strictly increasing (so pairwise distinct) and all at least 100 |
| `Jobs.IdAllocator.constructor` | PrintJob.java:21 | the counter starts at 100 with nothing issued |
| `Jobs.IdAllocator.Take` | PrintJob.java:69 | returns the current counter value, advances the counter by exactly one, and records the value after (and above) all earlier ones |
| `Jobs.NewPrintJob` | PrintJob.java:64-75 | the job gets the counter's current value as its identifier, and every other field exactly as given; the counter advances by one |
| `ProcessedJobs.NewProcessedPrintJob` | ProcessedPrintJob.java:35-44 | goes through the plain constructor, so it takes exactly one identifier from the same counter; it stores the choice list as given |
| `ProcessedJobs.ProcessedRawPrice` | ProcessedPrintJob.java:107-115 | the processed rate table is the base table, with Acrylic (0.09) added |
| `ProcessedJobs.ChoiceCharge` | ProcessedPrintJob.java:143-150 | one choice's per-item charge: 0.01·volume for UV Curing, 0.005·volume for UV Protective Coating, 0.50 for Polishing; the contract states that it is never negative for a non-negative volume and that any other string is charged 0 |
| `ProcessedJobs.PostProcessingCost` | ProcessedPrintJob.java:129-154 | the summed charges are never negative for a non-negative volume, and are 0 for an empty list |
| `ProcessedJobs.GetPostProcessingPrice` | ProcessedPrintJob.java:129-154 | the loop computes PostProcessingCost of the choices |
| `ProcessedJobs.PostProcessingCostAppend` | ProcessedPrintJob.java:138-152 | the cost of two lists one after the other is the sum of their costs |
| `ProcessedJobs.ChoiceChargeByCounts` | ProcessedPrintJob.java:143-150 | one choice costs what one occurrence of its kind costs; an unknown choice costs 0 |
| `ProcessedJobs.PostProcessingCostByCounts` | ProcessedPrintJob.java:129-154 | the cost is (number of UV Curing)·0.01·volume + (number of UV Protective Coating)·0.005·volume + (number of Polishing)·0.50: duplicates are charged each time and unknown choices are free |
| `ProcessedJobs.DecimalString` | ProcessedPrintJob.java:83 | the printed position is a non-empty string of decimal digits with no leading zero |
| `ProcessedJobs.DecimalRoundTrip` | ProcessedPrintJob.java:83 | the printed position reads back as the position |
| `ProcessedJobs.Listing` | ProcessedPrintJob.java:75-88 | the listing is empty exactly when there are no choices, and has at least four characters per choice |
| `ProcessedJobs.GetPostProcessingString` | ProcessedPrintJob.java:75-88 | the loop builds Listing of the choices |
| `ProcessedJobs.ListingFromAppend` | ProcessedPrintJob.java:82-86 | numbering a list extended by one choice gives that choice the next number, at the end |
| `ProcessedJobs.ListingNumbersFromOne` | ProcessedPrintJob.java:75-88 | the listing is "(1)c1 (2)c2 ... (n)cn ", front to back and in list order |
| `ProcessedJobs.ProcessedGrossPrice` | ProcessedPrintJob.java:96-123 | its body is the formula (processed rate(plastic) · volume + post-processing cost) · quantity; the contract states that it is never negative for non-negative volume and quantity, and is 0 for a zero quantity |
| `ProcessedJobs.ProcessedTotalPrice` | ProcessedPrintJob.java:163-190 | the total is at least 60.50 even after the discount, and never more than max(gross, 60.50) |
| `ProcessedJobs.NoDiscountUpToThreshold` | ProcessedPrintJob.java:172-187 | with gross at least 60.50 and at most 500 items (500 included), the total is the gross price |
| `ProcessedJobs.DiscountAboveThreshold` | ProcessedPrintJob.java:172-184 | with gross at least 60.50 and more than 500 items, the total is max(0.9·gross, 60.50), which is at most the gross price |
| `ProcessedJobs.NoChoicesMatchesPlainGross` | ProcessedPrintJob.java:96-123 | with no choices, a processed job in any plastic other than Acrylic has the plain job's gross price (unknown plastics cost 0 in both tables) |
| `ProcessedJobs.PolishedGearsExample` | ProcessedPrintJob.java:96-190 | 600 polished ABS items of 1000 mm3 cost 36300 gross and 32670 after the discount |
| `ProcessedJobs.GrossPrice` | ProcessedPrintJob.java:95-123 | the gross price of any job, plain or processed: never negative for non-negative volume and quantity, and 0 for a zero quantity |
| `ProcessedJobs.TotalPrice` | ProcessedPrintJob.java:162-190 | the total price of any job, plain or processed: never below 60.50, and never above max(gross, 60.50) |
| `Queues.Count` | PrintQueue.java:123-137 | the number of occupied slots is at most the number of slots |
| `Queues.Queued` | PrintQueue.java:5-9 | the queued jobs, in slot order: one per occupied slot |
| `Queues.CountZeroIffAllEmpty` | PrintQueue.java:163-177 | no job is counted exactly when every slot is empty |
| `Queues.CountFullIffAllOccupied` | PrintQueue.java:143-157 | every slot is counted exactly when every slot is occupied |
| `Queues.PrefixShapedOccupancy` | PrintQueue.java:98-117 | in a prefix-shaped array, the occupied slots are exactly the first Count of them |
| `Queues.OccupancyIsPrefixShaped` | PrintQueue.java:98-117 | an array occupied exactly below c is prefix-shaped and holds c jobs |
| `Queues.PrefixShapedJobs` | PrintQueue.java:24-41 | in a prefix-shaped array, the k-th queued job sits in slot k |
| `Queues.AllEmptyHasNoJobs` | PrintQueue.java:16-18 | an all-empty array is prefix-shaped and holds no jobs |
| `Queues.AddSlots` | PrintQueue.java:24-41 | what addToQueue leaves on any array that is not full: each empty slot at an index up to Count receives the job. The contract states that the length is kept, no occupied slot is overwritten, slots above Count are unchanged, and the job lands in at least one empty slot at or below Count |
| `Queues.SomeEmptyAtOrBelowCount` | PrintQueue.java:30-38 | when the array is not full, some slot at an index up to Count is empty, so the loop always places the job |
| `Queues.AddFillsEveryGap` | PrintQueue.java:35-38 | on the array [empty, empty, a, b] (count 2), one admission of j gives [j, j, a, b]: every gap up to the count is filled |
| `Queues.RemoveSlots` | PrintQueue.java:98-117 | what removeFromQueue leaves on any array with at least one slot: each slot takes the next one's content, the last slot keeps its own, then the slot whose index is the number of jobs in slots 1 onwards is emptied. The contract states only that the length is kept; RemoveOnPrefixShaped states its effect on a valid queue |
| `Queues.RemoveErasesSurvivor` | PrintQueue.java:107-116 | on the array [a, empty, b, empty], removal gives an all-empty array: job b, which was not at the front, is erased |
| `Queues.AddWritesOneSlot` | PrintQueue.java:30-40 | on a prefix-shaped array with k jobs, admission writes slot k only |
| `Queues.AddOnPrefixShaped` | PrintQueue.java:24-41 | on a prefix-shaped array, admission keeps the shape, adds one to the count and appends the job to the contents |
| `Queues.QueuedAppend` | PrintQueue.java:35-40 | filling the slot after the last job appends that job to the contents |
| `Queues.TailOfPrefixShaped` | PrintQueue.java:107-114 | slots 1 onwards of a prefix-shaped array are prefix-shaped and hold one job fewer (none if the array held none) |
| `Queues.RemoveOccupancy` | PrintQueue.java:107-116 | after removal, the slots below the number of surviving jobs hold the old slots 1 onwards, and every other slot is empty |
| `Queues.RemoveOnPrefixShaped` | PrintQueue.java:98-117 | on a prefix-shaped array, removal keeps the shape; the count drops by one and the contents lose their head; an empty queue stays empty |
| `Queues.QueuedShift` | PrintQueue.java:107-114 | arrays whose jobs differ by a one-slot shift differ in contents by the head |
| `Queues.RunIsFifo` | PrintQueue.java:24-117 | from a prefix-shaped array, any run of admissions (never into a full queue) and removals keeps the array prefix-shaped; the jobs released, followed by the jobs still queued, are the initial jobs followed by the admitted ones, so jobs leave in arrival order |
| `Queues.PrintQueue.constructor` | PrintQueue.java:16-18 | creates queueSize slots, all empty: a valid queue with no contents |
| `Queues.PrintQueue.CountJobs` | PrintQueue.java:123-137 | returns the number of occupied slots, which is at most the number of slots; changes nothing |
| `Queues.PrintQueue.CheckIfQueueIsFull` | PrintQueue.java:143-157 | true exactly when every slot is occupied, that is, when the count equals the length |
| `Queues.PrintQueue.CheckIfQueueIsEmpty` | PrintQueue.java:163-177 | true exactly when every slot is empty, that is, when the count is 0 |
| `Queues.PrintQueue.SearchPrintJob` | PrintQueue.java:67-92 | found exactly when some occupied slot has the identifier; the index is the last such slot (0 if none), and the only one when identifiers are distinct; the array is unchanged |
| `Queues.PrintQueue.AddToQueue` | PrintQueue.java:24-41 | requires the queue not to be full; fills every empty slot up to index Count with the job (AddSlots), so on a valid queue it keeps the queue valid and appends the job to the contents |
| `Queues.PrintQueue.RemoveFromQueue` | PrintQueue.java:98-117 | requires at least one slot; shifts the slots forward and empties the slot whose index is the number of jobs in slots 1 onwards (RemoveSlots); on a valid queue it keeps the queue valid and drops the head of the contents (an empty queue stays empty) |

## Left out

- Console output is not modelled: `displayAllDetails` in both job classes, `PrintQueue.printDetails`, and the display call inside `searchPrintJob`. `SearchPrintJob` returns the slot index that the display would have used.
- Prices are exact reals. IEEE-754 `double` rounding and the `%.2f` formatting are not modelled.
- Jobs are values, not references. The queue holds copies, so aliasing between slots is not represented; a job's own fields never change, so this cannot be observed through the queue.
- `ProcessedJobs.NewProcessedPrintJob`: the choice list is copied into the job as a value, not shared with the caller. The Java job keeps the caller's `ArrayList` by reference and reads it again at every pricing or listing call, so a caller that changes its list after construction changes that job's gross price, total and listing; the model does not capture this.
- A null choice list, a null plastic type and other null references are not modelled. They would make the Java pricing methods throw.
- A negative queue size is not modelled; Java rejects it at array creation. The constructor takes a `nat`.
- `Jobs.IdAllocator.Take`: does not model the 32-bit wrap-around of the Java `int` counter: the (2^31 − 100)-th construction is issued 2^31 − 1 and wraps the counter, so the next identifier would be −2^31. Identifiers are unbounded integers, so "strictly increasing" holds without limit.
- Behaviour the code does not have is not modelled: rejecting unknown materials or treatments, a queue-full error, a ring-buffer dequeue, returning the removed job.
