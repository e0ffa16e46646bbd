/**
 * The print queue: a fixed number of slots, each empty or holding one print
 * job. Admission fills every empty slot up to the job count (on a
 * prefix-shaped queue, only the slot after the last job); removal takes
 * the front job by shifting every slot one place forward. Kept prefix-shaped (no
 * occupied slot after an empty one), the slots behave as a first-in,
 * first-out queue whose contents are the jobs in slot order.
 */
module Queues {

  import opened Wrappers
  import opened Jobs

  /** The contents of the slot array; `None` is an empty slot. */
  type Slots = seq<Option<PrintJob>>

  // ---------------------------------------------------------------------
  // Specification of the slot array

  /** The number of occupied slots. */
  function Count(s: Slots): (r: nat)
    ensures r <= |s|
  {
    if s == [] then 0 else Count(s[..|s| - 1]) + (if s[|s| - 1].Some? then 1 else 0)
  }

  /** The jobs held, in slot order. */
  function Queued(s: Slots): (r: seq<PrintJob>)
    ensures |r| == Count(s)
  {
    if s == [] then []
    else if s[|s| - 1].Some? then Queued(s[..|s| - 1]) + [s[|s| - 1].value]
    else Queued(s[..|s| - 1])
  }

  /** No occupied slot comes after an empty one. */
  ghost predicate PrefixShaped(s: Slots)
  {
    forall i, j :: 0 <= i < j < |s| && s[i].None? ==> s[j].None?
  }

  /** Whether a slot holds the job with this identifier. */
  predicate HoldsId(slot: Option<PrintJob>, id: int)
  {
    slot.Some? && slot.value.printID == id
  }

  /** No two occupied slots hold the same identifier. */
  ghost predicate DistinctIds(s: Slots)
  {
    forall i, j :: 0 <= i < j < |s| && s[i].Some? && s[j].Some? ==> s[i].value.printID != s[j].value.printID
  }

  lemma {:induction false} CountZeroIffAllEmpty(s: Slots)
    ensures Count(s) == 0 <==> forall k :: 0 <= k < |s| ==> s[k].None?
  {
    if s != [] {
      var init := s[..|s| - 1];
      CountZeroIffAllEmpty(init);
      assert forall k :: 0 <= k < |init| ==> init[k] == s[k];
    }
  }

  lemma {:induction false} CountFullIffAllOccupied(s: Slots)
    ensures Count(s) == |s| <==> forall k :: 0 <= k < |s| ==> s[k].Some?
  {
    if s != [] {
      var init := s[..|s| - 1];
      CountFullIffAllOccupied(init);
      assert forall k :: 0 <= k < |init| ==> init[k] == s[k];
    }
  }

  /** In a prefix-shaped array the occupied slots are exactly the first Count(s). */
  lemma {:induction false} PrefixShapedOccupancy(s: Slots)
    requires PrefixShaped(s)
    ensures forall k :: 0 <= k < |s| ==> (s[k].Some? <==> k < Count(s))
  {
    if s != [] {
      var init := s[..|s| - 1];
      assert forall k :: 0 <= k < |init| ==> init[k] == s[k];
      PrefixShapedOccupancy(init);
      if s[|s| - 1].Some? {
        CountFullIffAllOccupied(init);
      }
    }
  }

  /** The converse: slots occupied exactly below `c` are prefix-shaped with count `c`. */
  lemma {:induction false} OccupancyIsPrefixShaped(s: Slots, c: nat)
    requires c <= |s|
    requires forall k :: 0 <= k < |s| ==> (s[k].Some? <==> k < c)
    ensures PrefixShaped(s) && Count(s) == c
  {
    if s != [] {
      var init := s[..|s| - 1];
      assert forall k :: 0 <= k < |init| ==> init[k] == s[k];
      OccupancyIsPrefixShaped(init, if c == |s| then c - 1 else c);
    }
  }

  /** In a prefix-shaped array the k-th job of the contents sits in slot k. */
  lemma {:induction false} PrefixShapedJobs(s: Slots)
    requires PrefixShaped(s)
    ensures Count(s) <= |s|
    ensures forall k :: 0 <= k < Count(s) ==> s[k].Some? && Queued(s)[k] == s[k].value
  {
    PrefixShapedOccupancy(s);
    if s != [] {
      var init := s[..|s| - 1];
      assert forall k :: 0 <= k < |init| ==> init[k] == s[k];
      PrefixShapedJobs(init);
    }
  }

  /** A queue with no jobs has no contents. */
  lemma AllEmptyHasNoJobs(s: Slots)
    requires forall k :: 0 <= k < |s| ==> s[k].None?
    ensures PrefixShaped(s) && Count(s) == 0 && Queued(s) == []
  {
    OccupancyIsPrefixShaped(s, 0);
  }

  // ---------------------------------------------------------------------
  // The two updates, on any slot array

  /**
   * What addToQueue leaves behind: every empty slot among the first
   * Count(s) + 1 receives the job. The code reads slot Count(s), so the
   * array must not be full.
   */
  function AddSlots(s: Slots, job: PrintJob): (r: Slots)
    requires Count(s) < |s|
    ensures |r| == |s|
    ensures forall k :: 0 <= k < |s| && s[k].Some? ==> r[k] == s[k]
    ensures forall k :: Count(s) < k < |s| ==> r[k] == s[k]
    ensures exists k :: 0 <= k <= Count(s) && s[k].None? && r[k] == Some(job)
  {
    SomeEmptyAtOrBelowCount(s);
    seq(|s|, k requires 0 <= k < |s| => if k <= Count(s) && s[k].None? then Some(job) else s[k])
  }

  /** A prefix never holds more jobs than the whole array. */
  lemma {:induction false} CountOfPrefix(s: Slots, n: nat)
    requires n <= |s|
    ensures Count(s[..n]) <= Count(s)
    decreases |s|
  {
    if n < |s| {
      var init := s[..|s| - 1];
      assert s[..n] == init[..n];
      CountOfPrefix(init, n);
    } else {
      assert s[..n] == s;
    }
  }

  /** When the array is not full, some slot at or below the job count is empty. */
  lemma SomeEmptyAtOrBelowCount(s: Slots)
    requires Count(s) < |s|
    ensures exists k :: 0 <= k <= Count(s) && s[k].None?
  {
    var c := Count(s);
    var front := s[..c + 1];
    CountOfPrefix(s, c + 1);
    CountFullIffAllOccupied(front);
    var k :| 0 <= k < |front| && front[k].None?;
    assert s[k].None?;
  }

  /** On an array with gaps, one admission fills every gap up to the job count. */
  lemma AddFillsEveryGap(a: PrintJob, b: PrintJob, j: PrintJob)
    ensures Count([None, None, Some(a), Some(b)]) == 2
    ensures AddSlots([None, None, Some(a), Some(b)], j) == [Some(j), Some(j), Some(a), Some(b)]
  {
    var s: Slots := [None, None, Some(a), Some(b)];
    var s3: Slots, s2: Slots, s1: Slots, s0: Slots := [None, None, Some(a)], [None, None], [None], [];
    assert s[..3] == s3 && s3[..2] == s2 && s2[..1] == s1 && s1[..0] == s0;
    assert Count(s0) == 0;
    assert Count(s1) == 0;
    assert Count(s2) == 0;
    assert Count(s3) == 1;
    assert Count(s) == 2;
    var r := AddSlots(s, j);
    assert r[0] == Some(j) && r[1] == Some(j) && r[2] == Some(a) && r[3] == Some(b);
  }

  /**
   * What removeFromQueue leaves behind: each slot takes the next one's
   * content, the last keeps its own, and then the slot whose index is the
   * number of jobs that were in slots 1 onwards is emptied. The code writes
   * slot 0, so there must be at least one slot.
   */
  function RemoveSlots(s: Slots): (r: Slots)
    requires |s| >= 1
    ensures |r| == |s|
  {
    (s[1..] + [s[|s| - 1]])[Count(s[1..]) := None]
  }

  /** On an array with gaps, removal can erase a job that was not at the front. */
  lemma RemoveErasesSurvivor(a: PrintJob, b: PrintJob)
    ensures RemoveSlots([Some(a), None, Some(b), None]) == [None, None, None, None]
  {
    var s: Slots := [Some(a), None, Some(b), None];
    var t: Slots, t2: Slots, t1: Slots, t0: Slots := [None, Some(b), None], [None, Some(b)], [None], [];
    assert s[1..] == t && t[..2] == t2 && t2[..1] == t1 && t1[..0] == t0;
    assert Count(t0) == 0;
    assert Count(t1) == 0;
    assert Count(t2) == 1;
    assert Count(t) == 1;
  }

  /** On a prefix-shaped array, admission writes only the slot after the last job. */
  lemma AddWritesOneSlot(s: Slots, job: PrintJob)
    requires PrefixShaped(s) && Count(s) < |s|
    ensures AddSlots(s, job) == s[Count(s) := Some(job)]
  {
    PrefixShapedOccupancy(s);
  }

  /** On a prefix-shaped array, admission keeps the shape and appends the job to the contents. */
  lemma AddOnPrefixShaped(s: Slots, job: PrintJob)
    requires PrefixShaped(s) && Count(s) < |s|
    ensures AddSlots(s, job) == s[Count(s) := Some(job)]
    ensures PrefixShaped(AddSlots(s, job)) && Count(AddSlots(s, job)) == Count(s) + 1
    ensures Queued(AddSlots(s, job)) == Queued(s) + [job]
  {
    var c := Count(s);
    AddWritesOneSlot(s, job);
    var r := s[c := Some(job)];
    PrefixShapedOccupancy(s);
    OccupancyIsPrefixShaped(r, c + 1);
    QueuedAppend(s, r, job);
  }

  /** A prefix-shaped array extended by one job in the next slot has that job appended to its contents. */
  lemma QueuedAppend(s: Slots, r: Slots, job: PrintJob)
    requires PrefixShaped(s) && PrefixShaped(r) && Count(s) < |r| && Count(r) == Count(s) + 1
    requires forall k :: 0 <= k < Count(s) ==> r[k] == s[k]
    requires r[Count(s)] == Some(job)
    ensures Queued(r) == Queued(s) + [job]
  {
    PrefixShapedJobs(s);
    PrefixShapedJobs(r);
    var before, after := Queued(s), Queued(r);
    forall k | 0 <= k < |after| ensures after[k] == (before + [job])[k] {
      if k < |before| {
        assert r[k] == s[k];
      }
    }
  }

  /** Dropping the first slot of a prefix-shaped array leaves one job fewer (none if there were none). */
  lemma TailOfPrefixShaped(s: Slots)
    requires PrefixShaped(s) && |s| >= 1
    ensures PrefixShaped(s[1..])
    ensures Count(s[1..]) == if Count(s) == 0 then 0 else Count(s) - 1
  {
    var t := s[1..];
    PrefixShapedOccupancy(s);
    assert forall k :: 0 <= k < |t| ==> (t[k].Some? <==> k < (if Count(s) == 0 then 0 else Count(s) - 1));
    OccupancyIsPrefixShaped(t, if Count(s) == 0 then 0 else Count(s) - 1);
  }

  /** After removal from a prefix-shaped array, the first Count(s[1..]) slots are occupied by s[1..]'s jobs. */
  lemma RemoveOccupancy(s: Slots)
    requires PrefixShaped(s) && |s| >= 1
    ensures var r := RemoveSlots(s);
      forall k :: 0 <= k < |s| ==> (r[k].Some? <==> k < Count(s[1..]))
    ensures var r := RemoveSlots(s);
      forall k :: 0 <= k < Count(s[1..]) ==> r[k] == s[k + 1]
  {
    var t := s[1..];
    TailOfPrefixShaped(s);
    PrefixShapedOccupancy(t);
  }

  /**
   * On a prefix-shaped array, removal moves every job one slot forward and
   * drops the first: the contents lose their head. An empty queue stays
   * empty.
   */
  lemma RemoveOnPrefixShaped(s: Slots)
    requires PrefixShaped(s) && |s| >= 1
    ensures PrefixShaped(RemoveSlots(s))
    ensures Count(RemoveSlots(s)) == if Count(s) == 0 then 0 else Count(s) - 1
    ensures Queued(RemoveSlots(s)) == if Queued(s) == [] then [] else Queued(s)[1..]
  {
    var r := RemoveSlots(s);
    var c := Count(s[1..]);
    TailOfPrefixShaped(s);
    RemoveOccupancy(s);
    OccupancyIsPrefixShaped(r, c);
    PrefixShapedOccupancy(s);
    if Count(s) != 0 {
      QueuedShift(s, r);
    } else {
      CountZeroIffAllEmpty(r);
    }
  }

  /** Two prefix-shaped arrays whose jobs differ by a shift of one slot differ in contents by the head. */
  lemma QueuedShift(s: Slots, r: Slots)
    requires PrefixShaped(s) && PrefixShaped(r) && Count(s) >= 1 && Count(r) == Count(s) - 1
    requires forall k :: 0 <= k < Count(r) ==> r[k] == s[k + 1]
    ensures Queued(r) == Queued(s)[1..]
  {
    PrefixShapedJobs(s);
    PrefixShapedJobs(r);
    var front, rest := Queued(s), Queued(r);
    forall k | 0 <= k < |rest| ensures rest[k] == front[k + 1] {
      assert r[k] == s[k + 1];
    }
  }

  // ---------------------------------------------------------------------
  // First in, first out

  datatype Op = Add(job: PrintJob) | Remove

  /** The slots after a run of operations, and the jobs removed from the front, in order. */
  datatype Outcome = Outcome(slots: Slots, released: seq<PrintJob>)

  /** A run that never admits into a full queue and never removes from a zero-slot one. */
  predicate Admissible(s: Slots, ops: seq<Op>)
    decreases |ops|
  {
    ops == [] ||
    match ops[0]
    case Add(job) => Count(s) < |s| && Admissible(AddSlots(s, job), ops[1..])
    case Remove => |s| >= 1 && Admissible(RemoveSlots(s), ops[1..])
  }

  function Run(s: Slots, ops: seq<Op>): Outcome
    requires Admissible(s, ops)
    decreases |ops|
  {
    if ops == [] then Outcome(s, [])
    else match ops[0]
      case Add(job) => Run(AddSlots(s, job), ops[1..])
      case Remove =>
        var out := Run(RemoveSlots(s), ops[1..]);
        var front := Queued(s);
        Outcome(out.slots, (if front == [] then [] else [front[0]]) + out.released)
  }

  /** The jobs a run admits, in order. */
  function Admitted(ops: seq<Op>): seq<PrintJob>
  {
    if ops == [] then []
    else (if ops[0].Add? then [ops[0].job] else []) + Admitted(ops[1..])
  }

  /**
   * Starting from a prefix-shaped queue, any admissible run keeps it
   * prefix-shaped, and the jobs it removes followed by those still queued
   * are exactly the jobs queued at the start followed by those it admitted:
   * jobs leave in the order they arrived.
   */
  lemma {:induction false} RunIsFifo(s: Slots, ops: seq<Op>)
    requires PrefixShaped(s) && Admissible(s, ops)
    ensures PrefixShaped(Run(s, ops).slots) && |Run(s, ops).slots| == |s|
    ensures Run(s, ops).released + Queued(Run(s, ops).slots) == Queued(s) + Admitted(ops)
    decreases |ops|
  {
    if ops != [] {
      var rest := ops[1..];
      match ops[0]
      case Add(job) =>
        AddOnPrefixShaped(s, job);
        RunIsFifo(AddSlots(s, job), rest);
        AdmitBack(Queued(s), job, Run(AddSlots(s, job), rest), Admitted(rest));
      case Remove =>
        RemoveOnPrefixShaped(s);
        RunIsFifo(RemoveSlots(s), rest);
        ReleaseFront(Queued(s), Queued(RemoveSlots(s)), Run(RemoveSlots(s), rest), Admitted(rest));
    }
  }

  /** Appending a job, then what a later run admits, is admitting both in order. */
  lemma AdmitBack(queued: seq<PrintJob>, job: PrintJob, out: Outcome, admitted: seq<PrintJob>)
    requires out.released + Queued(out.slots) == (queued + [job]) + admitted
    ensures out.released + Queued(out.slots) == queued + ([job] + admitted)
  {
  }

  /** Releasing the head of the contents, then what a later run releases, keeps the order. */
  lemma ReleaseFront(front: seq<PrintJob>, after: seq<PrintJob>, out: Outcome, admitted: seq<PrintJob>)
    requires after == if front == [] then [] else front[1..]
    requires out.released + Queued(out.slots) == after + admitted
    ensures ((if front == [] then [] else [front[0]]) + out.released) + Queued(out.slots) == front + admitted
  {
    var head := if front == [] then [] else [front[0]];
    assert head + after == front;
    calc {
      (head + out.released) + Queued(out.slots);
      head + (out.released + Queued(out.slots));
      head + (after + admitted);
      (head + after) + admitted;
    }
  }

  // ---------------------------------------------------------------------
  // The queue object

  class PrintQueue {
    var printQueue: array<Option<PrintJob>>

    /** The queue's invariant, kept by the constructor and both updates. */
    ghost predicate Valid()
      reads this, printQueue
    {
      PrefixShaped(printQueue[..])
    }

    /** The jobs queued, front first. */
    ghost function Contents(): seq<PrintJob>
      reads this, printQueue
    {
      Queued(printQueue[..])
    }

    constructor (queueSize: nat)
      ensures fresh(printQueue) && printQueue.Length == queueSize
      ensures forall k :: 0 <= k < queueSize ==> printQueue[k].None?
      ensures Valid() && Contents() == []
    {
      printQueue := new Option<PrintJob>[queueSize](_ => None);
      new;
      AllEmptyHasNoJobs(printQueue[..]);
    }

    method CountJobs() returns (count: nat)
      ensures count == Count(printQueue[..])
      ensures count <= printQueue.Length
    {
      var i := 0;
      count := 0;
      while i < printQueue.Length
        invariant 0 <= i <= printQueue.Length
        invariant count == Count(printQueue[..i])
      {
        if printQueue[i].Some? {
          count := count + 1;
        }
        assert printQueue[..i + 1][..i] == printQueue[..i];
        i := i + 1;
      }
      assert printQueue[..i] == printQueue[..];
    }

    method CheckIfQueueIsFull() returns (full: bool)
      ensures full <==> forall k :: 0 <= k < printQueue.Length ==> printQueue[k].Some?
      ensures full <==> Count(printQueue[..]) == printQueue.Length
    {
      full := true;
      var i := 0;
      while i < printQueue.Length
        invariant 0 <= i <= printQueue.Length
        invariant full <==> forall k :: 0 <= k < i ==> printQueue[k].Some?
      {
        if printQueue[i].None? {
          full := false;
        }
        i := i + 1;
      }
      CountFullIffAllOccupied(printQueue[..]);
    }

    method CheckIfQueueIsEmpty() returns (empty: bool)
      ensures empty <==> forall k :: 0 <= k < printQueue.Length ==> printQueue[k].None?
      ensures empty <==> Count(printQueue[..]) == 0
    {
      empty := true;
      var i := 0;
      while i < printQueue.Length
        invariant 0 <= i <= printQueue.Length
        invariant empty <==> forall k :: 0 <= k < i ==> printQueue[k].None?
      {
        if printQueue[i].Some? {
          empty := false;
        }
        i := i + 1;
      }
      CountZeroIffAllEmpty(printQueue[..]);
    }

    /**
     * Looks for a job by identifier. `found` says whether some slot holds
     * it; `at` is the last such slot (0 when there is none), the one the
     * program goes on to display.
     */
    method SearchPrintJob(searchInput: int) returns (found: bool, at: nat)
      ensures found <==> exists k :: 0 <= k < printQueue.Length && HoldsId(printQueue[k], searchInput)
      ensures found ==> at < printQueue.Length && HoldsId(printQueue[at], searchInput)
      ensures found ==> forall k :: at < k < printQueue.Length ==> !HoldsId(printQueue[k], searchInput)
      ensures !found ==> at == 0
      ensures found && DistinctIds(printQueue[..]) ==>
        forall k :: 0 <= k < printQueue.Length && HoldsId(printQueue[k], searchInput) ==> k == at
    {
      var i := 0;
      at := 0;
      found := false;
      while i < printQueue.Length
        invariant 0 <= i <= printQueue.Length
        invariant found <==> exists k :: 0 <= k < i && HoldsId(printQueue[k], searchInput)
        invariant found ==> at < i && HoldsId(printQueue[at], searchInput)
        invariant found ==> forall k :: at < k < i ==> !HoldsId(printQueue[k], searchInput)
        invariant !found ==> at == 0
      {
        if printQueue[i].Some? {
          if searchInput == printQueue[i].value.printID {
            at := i;
            found := true;
          }
        }
        i := i + 1;
      }
    }

    /**
     * Admits a job into every empty slot up to index Count (several slots
     * when the array has gaps). On a prefix-shaped queue
     * the job lands right after the last one and is appended to the
     * contents.
     */
    method AddToQueue(printJob: PrintJob)
      requires Count(printQueue[..]) < printQueue.Length
      modifies printQueue
      ensures printQueue[..] == AddSlots(old(printQueue[..]), printJob)
      ensures old(Valid()) ==> Valid() && Contents() == old(Contents()) + [printJob]
    {
      ghost var before := printQueue[..];
      var i := 0;
      var count := CountJobs();
      while i <= count
        invariant 0 <= i <= count + 1
        invariant forall k :: 0 <= k < i ==>
          printQueue[k] == if before[k].None? then Some(printJob) else before[k]
        invariant forall k :: i <= k < printQueue.Length ==> printQueue[k] == before[k]
      {
        if printQueue[i].None? {
          printQueue[i] := Some(printJob);
        }
        i := i + 1;
      }
      assert printQueue[..] == AddSlots(before, printJob);
      if PrefixShaped(before) {
        AddOnPrefixShaped(before, printJob);
      }
    }

    /**
     * Removes the front job by shifting every slot one place forward and
     * emptying the slot whose index is the number of jobs in slots 1
     * onwards (on a prefix-shaped queue, the slot after the survivors). On
     * a prefix-shaped queue the contents lose their head (and stay empty
     * when empty).
     */
    method RemoveFromQueue()
      requires printQueue.Length >= 1
      modifies printQueue
      ensures printQueue[..] == RemoveSlots(old(printQueue[..]))
      ensures old(Valid()) ==>
        Valid() && Contents() == (if old(Contents()) == [] then [] else old(Contents())[1..])
    {
      ghost var before := printQueue[..];
      var i, j, count := 0, 1, 0;
      while j < printQueue.Length
        invariant 1 <= j <= printQueue.Length && i == j - 1
        invariant count == Count(before[1..j])
        invariant forall k :: 0 <= k < i ==> printQueue[k] == before[k + 1]
        invariant forall k :: i <= k < printQueue.Length ==> printQueue[k] == before[k]
      {
        printQueue[i] := printQueue[j];
        if printQueue[j].Some? {
          count := count + 1;
        }
        assert before[1..j + 1][..j - 1] == before[1..j];
        i, j := i + 1, j + 1;
      }
      assert before[1..j] == before[1..];
      printQueue[count] := None;
      assert printQueue[..] == RemoveSlots(before);
      if PrefixShaped(before) {
        RemoveOnPrefixShaped(before);
      }
    }
  }

  /** Capacity two: admit A and B, the queue is full; remove, and B is alone at the front. */
  method CapacityTwoScenario(a: PrintJob, b: PrintJob)
  {
    var q := new PrintQueue(2);
    q.AddToQueue(a);
    q.AddToQueue(b);
    var full := q.CheckIfQueueIsFull();
    assert full;
    q.RemoveFromQueue();
    assert q.printQueue[0] == Some(b) && q.printQueue[1] == None;
    var empty := q.CheckIfQueueIsEmpty();
    var count := q.CountJobs();
    assert !empty && count == 1;
  }
}
