/**
 * A print job: the record a customer's request becomes, the process-wide
 * sequence its identifier is drawn from, and the base pricing rule
 * (raw-material rate times volume times quantity, never billed below the
 * base price).
 */
module Jobs {

  import opened Wrappers

  /** The first identifier the shared sequence hands out. */
  const FirstPrintId: int := 100

  /** Raw-material rates, per cubic millimetre and item. */
  const RawPricePLA: real := 0.05
  const RawPriceABS: real := 0.06
  const RawPriceNylon: real := 0.07

  /** No job is billed below this amount. */
  const BasePrice: real := 60.50

  /**
   * One print request. The accessors of the program are this datatype's
   * fields; a value never changes once built. `postProcessingChoices` is
   * `None` for a plain print job and `Some(choices)` for a processed one.
   */
  datatype PrintJob = PrintJob(
    printID: int,
    customerID: string,
    printQuantity: int,
    volume: real,
    description: string,
    plasticType: string,
    postProcessingChoices: Option<seq<string>>)

  function Max(a: real, b: real): real
  {
    if a < b then b else a
  }

  /** The base rate table; an unrecognised plastic costs nothing. */
  function RawPrice(plasticType: string): (r: real)
    ensures r >= 0.0
    ensures r > 0.0 <==> plasticType in {"PLA", "ABS", "Nylon"}
  {
    if plasticType == "PLA" then RawPricePLA
    else if plasticType == "ABS" then RawPriceABS
    else if plasticType == "Nylon" then RawPriceNylon
    else 0.0
  }

  /** Gross price of a plain print job: rate times volume times quantity. */
  function StandardGrossPrice(job: PrintJob): (r: real)
    ensures job.volume >= 0.0 && job.printQuantity >= 0 ==> r >= 0.0
    ensures job.plasticType !in {"PLA", "ABS", "Nylon"} || job.volume == 0.0 || job.printQuantity == 0 ==> r == 0.0
  {
    (RawPrice(job.plasticType) * job.volume) * job.printQuantity as real
  }

  /** Total price of a plain print job: the gross price, raised to the base price. */
  function StandardTotalPrice(job: PrintJob): (r: real)
    ensures r >= BasePrice && r >= StandardGrossPrice(job)
    ensures r == BasePrice || r == StandardGrossPrice(job)
  {
    var gross := StandardGrossPrice(job);
    if gross < BasePrice then BasePrice else gross
  }

  lemma StandardTotalIsMax(job: PrintJob)
    ensures StandardTotalPrice(job) == Max(StandardGrossPrice(job), BasePrice)
    ensures StandardGrossPrice(job) >= BasePrice ==> StandardTotalPrice(job) == StandardGrossPrice(job)
  {
  }

  /** An unrecognised plastic makes the gross price 0 and the total the base price. */
  lemma UnknownPlasticPaysBasePrice(job: PrintJob)
    requires job.plasticType !in {"PLA", "ABS", "Nylon"}
    ensures StandardGrossPrice(job) == 0.0
    ensures StandardTotalPrice(job) == BasePrice
  {
  }

  /** The plain job of 10 PLA items of 20 mm3 each is billed the base price. */
  lemma SmallPlaJobExample()
    ensures var job := PrintJob(100, "C1", 10, 20.0, "widget", "PLA", None);
      StandardGrossPrice(job) == 10.0 && StandardTotalPrice(job) == 60.50
  {
  }

  /** Every identifier handed out so far, in order: 100, 101, 102, ... */
  ghost predicate Sequential(issued: seq<int>)
  {
    forall k :: 0 <= k < |issued| ==> issued[k] == FirstPrintId + k
  }

  lemma SequentialIsStrictlyIncreasing(issued: seq<int>)
    requires Sequential(issued)
    ensures forall i, j :: 0 <= i < j < |issued| ==> issued[i] < issued[j]
    ensures forall i :: 0 <= i < |issued| ==> issued[i] >= FirstPrintId
  {
  }

  /**
   * The process-wide counter behind print job identifiers, made an explicit
   * object: every job construction takes its current value and advances it
   * by one. `issued` records the values taken so far.
   */
  class IdAllocator {
    var next: int
    ghost var issued: seq<int>

    ghost predicate Valid()
      reads this
    {
      Sequential(issued) && next == FirstPrintId + |issued|
    }

    constructor ()
      ensures Valid() && next == FirstPrintId && issued == []
    {
      next := FirstPrintId;
      issued := [];
    }

    /** Takes the current counter value and advances the counter (the post-increment). */
    method Take() returns (id: int)
      requires Valid()
      modifies this
      ensures Valid()
      ensures id == old(next) && next == old(next) + 1
      ensures issued == old(issued) + [id]
      ensures forall k :: 0 <= k < |old(issued)| ==> old(issued)[k] < id
    {
      id := next;
      next := next + 1;
      issued := issued + [id];
    }
  }

  /**
   * Builds a plain print job: it draws its identifier from the shared
   * sequence and stores every other field exactly as given.
   */
  method NewPrintJob(ids: IdAllocator, customerID: string, printQuantity: int, volume: real,
                     description: string, plasticType: string) returns (job: PrintJob)
    requires ids.Valid()
    modifies ids
    ensures ids.Valid()
    ensures job == PrintJob(old(ids.next), customerID, printQuantity, volume, description, plasticType, None)
    ensures ids.next == old(ids.next) + 1 && ids.issued == old(ids.issued) + [job.printID]
  {
    var id := ids.Take();
    job := PrintJob(id, customerID, printQuantity, volume, description, plasticType, None);
  }
}
