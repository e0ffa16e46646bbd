/**
 * A processed print job: a print job that also carries an ordered list of
 * post-processing choices. It adds Acrylic to the rate table, charges each
 * choice per item, and gives large orders (more than 500 items) a 10%
 * discount that never takes the total below the base price.
 */
module ProcessedJobs {

  import opened Wrappers
  import opened Jobs

  const RawPriceAcrylic: real := 0.09
  /** Per-item post-processing charges: the first two per cubic millimetre, polishing flat. */
  const UvCuring: real := 0.01
  const UvProtectiveCoating: real := 0.005
  const Polishing: real := 0.50
  const Discount: real := 0.10
  /** Orders of strictly more items than this are discounted. */
  const DiscountThreshold: int := 500

  /**
   * Builds a processed print job through the plain job's constructor, so it
   * takes exactly one identifier from the same shared sequence.
   */
  method NewProcessedPrintJob(ids: IdAllocator, customerID: string, printQuantity: int, volume: real,
                              description: string, plasticType: string, choices: seq<string>)
    returns (job: PrintJob)
    requires ids.Valid()
    modifies ids
    ensures ids.Valid()
    ensures job == PrintJob(old(ids.next), customerID, printQuantity, volume, description, plasticType, Some(choices))
    ensures ids.next == old(ids.next) + 1 && ids.issued == old(ids.issued) + [job.printID]
  {
    var base := NewPrintJob(ids, customerID, printQuantity, volume, description, plasticType);
    job := base.(postProcessingChoices := Some(choices));
  }

  /** The processed rate table: the base table extended with Acrylic. */
  function ProcessedRawPrice(plasticType: string): (r: real)
    ensures plasticType != "Acrylic" ==> r == RawPrice(plasticType)
    ensures plasticType == "Acrylic" ==> r == RawPriceAcrylic && RawPrice(plasticType) == 0.0
  {
    if plasticType == "PLA" then RawPricePLA
    else if plasticType == "ABS" then RawPriceABS
    else if plasticType == "Nylon" then RawPriceNylon
    else if plasticType == "Acrylic" then RawPriceAcrylic
    else 0.0
  }

  // ---------------------------------------------------------------------
  // Post-processing cost

  /** What one choice adds per item; an unrecognised choice adds nothing. */
  function ChoiceCharge(choice: string, volume: real): (r: real)
    ensures volume >= 0.0 ==> r >= 0.0
    ensures choice !in {"UV Curing", "UV Protective Coating", "Polishing"} ==> r == 0.0
  {
    if choice == "UV Curing" then UvCuring * volume
    else if choice == "UV Protective Coating" then UvProtectiveCoating * volume
    else if choice == "Polishing" then Polishing
    else 0.0
  }

  /** The per-item post-processing cost: the charges of the choices, summed in list order. */
  function PostProcessingCost(choices: seq<string>, volume: real): (r: real)
    ensures volume >= 0.0 ==> r >= 0.0
    ensures choices == [] ==> r == 0.0
  {
    if choices == [] then 0.0
    else PostProcessingCost(choices[..|choices| - 1], volume) + ChoiceCharge(choices[|choices| - 1], volume)
  }

  /** The loop of getPostProcessingPrice, proved to compute PostProcessingCost. */
  method GetPostProcessingPrice(choices: seq<string>, volume: real) returns (totalPostProcessing: real)
    ensures totalPostProcessing == PostProcessingCost(choices, volume)
  {
    totalPostProcessing := 0.0;
    var i := 0;
    while i < |choices|
      invariant 0 <= i <= |choices|
      invariant totalPostProcessing == PostProcessingCost(choices[..i], volume)
    {
      if choices[i] == "UV Curing" {
        totalPostProcessing := totalPostProcessing + UvCuring * volume;
      } else if choices[i] == "UV Protective Coating" {
        totalPostProcessing := totalPostProcessing + UvProtectiveCoating * volume;
      } else if choices[i] == "Polishing" {
        totalPostProcessing := totalPostProcessing + Polishing;
      }
      assert choices[..i + 1][..i] == choices[..i];
      i := i + 1;
    }
    assert choices[..i] == choices;
  }

  /** The cost of two lists one after the other is the sum of their costs. */
  lemma {:induction false} PostProcessingCostAppend(a: seq<string>, b: seq<string>, volume: real)
    ensures PostProcessingCost(a + b, volume) == PostProcessingCost(a, volume) + PostProcessingCost(b, volume)
    decreases |b|
  {
    if b == [] {
      assert a + b == a;
    } else {
      var b' := b[..|b| - 1];
      assert (a + b)[..|a + b| - 1] == a + b';
      PostProcessingCostAppend(a, b', volume);
    }
  }

  /** The cost of `c` UV curings, `p` UV protective coatings and `o` polishings. */
  function CostOfCounts(c: nat, p: nat, o: nat, volume: real): real
  {
    c as real * (UvCuring * volume) + p as real * (UvProtectiveCoating * volume) + o as real * Polishing
  }

  lemma CostOfCountsAdd(c: nat, p: nat, o: nat, c': nat, p': nat, o': nat, volume: real)
    ensures CostOfCounts(c + c', p + p', o + o', volume)
         == CostOfCounts(c, p, o, volume) + CostOfCounts(c', p', o', volume)
  {
  }

  /** How often `choice` occurs in the one-element list `[last]`. */
  function Indicator(last: string, choice: string): nat
  {
    if last == choice then 1 else 0
  }

  lemma {:induction false} ChoiceChargeByCounts(choice: string, volume: real)
    ensures ChoiceCharge(choice, volume) == CostOfCounts(
      Indicator(choice, "UV Curing"), Indicator(choice, "UV Protective Coating"),
      Indicator(choice, "Polishing"), volume)
  {
    assert |"UV Curing"| == 9 && |"UV Protective Coating"| == 21 && |"Polishing"| == 9;
    assert "UV Curing"[0] != "Polishing"[0];
    if choice == "UV Curing" {
      assert CostOfCounts(1, 0, 0, volume) == UvCuring * volume;
    } else if choice == "UV Protective Coating" {
      assert CostOfCounts(0, 1, 0, volume) == UvProtectiveCoating * volume;
    } else if choice == "Polishing" {
      assert CostOfCounts(0, 0, 1, volume) == Polishing;
    } else {
      assert CostOfCounts(0, 0, 0, volume) == 0.0;
    }
  }

  /**
   * The cost depends only on how many times each recognised choice occurs:
   * every occurrence, duplicates included, is charged, and everything else
   * is free.
   */
  lemma {:induction false} PostProcessingCostByCounts(choices: seq<string>, volume: real)
    ensures PostProcessingCost(choices, volume) == CostOfCounts(
      multiset(choices)["UV Curing"], multiset(choices)["UV Protective Coating"],
      multiset(choices)["Polishing"], volume)
  {
    if choices != [] {
      var init := choices[..|choices| - 1];
      var last := choices[|choices| - 1];
      assert choices == init + [last];
      assert multiset(choices) == multiset(init) + multiset{last};
      PostProcessingCostByCounts(init, volume);
      ChoiceChargeByCounts(last, volume);
      CostOfCountsAdd(multiset(init)["UV Curing"], multiset(init)["UV Protective Coating"], multiset(init)["Polishing"],
        Indicator(last, "UV Curing"), Indicator(last, "UV Protective Coating"), Indicator(last, "Polishing"), volume);
    }
  }

  // ---------------------------------------------------------------------
  // Listing of the choices

  function DigitChar(d: nat): char
    requires d < 10
  {
    "0123456789"[d]
  }

  /** The decimal representation of a natural number, as Java prints an int. */
  function DecimalString(n: nat): (s: string)
    ensures |s| >= 1
    ensures forall k :: 0 <= k < |s| ==> '0' <= s[k] <= '9'
    ensures n > 0 ==> s[0] != '0'
  {
    if n < 10 then [DigitChar(n)] else DecimalString(n / 10) + [DigitChar(n % 10)]
  }

  /** The number a string of decimal digits denotes. */
  function DecimalValue(s: string): nat
    requires forall k :: 0 <= k < |s| ==> '0' <= s[k] <= '9'
  {
    if s == [] then 0 else DecimalValue(s[..|s| - 1]) * 10 + (s[|s| - 1] as int - '0' as int)
  }

  /** The printed position reads back as the position. */
  lemma {:induction false} DecimalRoundTrip(n: nat)
    ensures DecimalValue(DecimalString(n)) == n
  {
    var s := DecimalString(n);
    if n >= 10 {
      assert s[..|s| - 1] == DecimalString(n / 10);
      DecimalRoundTrip(n / 10);
    }
  }

  /** One entry of the listing: "(position)choice ". */
  function Entry(position: nat, choice: string): string
  {
    "(" + DecimalString(position) + ")" + choice + " "
  }

  /** The listing the loop of getPostProcessingString builds, entry by entry. */
  function Listing(choices: seq<string>): (r: string)
    ensures |r| >= 4 * |choices|
    ensures r == "" <==> choices == []
  {
    if choices == [] then ""
    else Listing(choices[..|choices| - 1]) + Entry(|choices|, choices[|choices| - 1])
  }

  /** An independent reading: the choices numbered from `position` on, front to back. */
  function ListingFrom(choices: seq<string>, position: nat): string
  {
    if choices == [] then "" else Entry(position, choices[0]) + ListingFrom(choices[1..], position + 1)
  }

  method GetPostProcessingString(choices: seq<string>) returns (postProcessing: string)
    ensures postProcessing == Listing(choices)
  {
    postProcessing := "";
    var i := 0;
    while i < |choices|
      invariant 0 <= i <= |choices|
      invariant postProcessing == Listing(choices[..i])
    {
      ghost var done := postProcessing;
      postProcessing := postProcessing + "(" + DecimalString(i + 1) + ")";
      postProcessing := postProcessing + choices[i] + " ";
      assert postProcessing == done + Entry(i + 1, choices[i]);
      assert choices[..i + 1][..i] == choices[..i];
      assert Listing(choices[..i + 1]) == Listing(choices[..i]) + Entry(i + 1, choices[i]);
      i := i + 1;
    }
    assert choices[..i] == choices;
  }

  lemma {:induction false} ListingFromAppend(choices: seq<string>, choice: string, position: nat)
    ensures ListingFrom(choices + [choice], position)
         == ListingFrom(choices, position) + Entry(position + |choices|, choice)
    decreases |choices|
  {
    if choices == [] {
      assert ListingFrom([choice], position) == Entry(position, choice) + ListingFrom([], position + 1);
    } else {
      assert (choices + [choice])[1..] == choices[1..] + [choice];
      ListingFromAppend(choices[1..], choice, position + 1);
    }
  }

  /** The listing is entry (1) for the first choice, then (2) for the second, and so on. */
  lemma {:induction false} ListingNumbersFromOne(choices: seq<string>)
    ensures Listing(choices) == ListingFrom(choices, 1)
  {
    if choices != [] {
      var init := choices[..|choices| - 1];
      ListingNumbersFromOne(init);
      assert choices == init + [choices[|choices| - 1]];
      ListingFromAppend(init, choices[|choices| - 1], 1);
    }
  }

  // ---------------------------------------------------------------------
  // Pricing of a processed job

  /** Gross price of a processed job: (rate times volume plus post-processing) times quantity. */
  function ProcessedGrossPrice(job: PrintJob): (r: real)
    requires job.postProcessingChoices.Some?
    ensures job.volume >= 0.0 && job.printQuantity >= 0 ==> r >= 0.0
    ensures job.printQuantity == 0 ==> r == 0.0
  {
    (ProcessedRawPrice(job.plasticType) * job.volume
      + PostProcessingCost(job.postProcessingChoices.value, job.volume))
    * job.printQuantity as real
  }

  /**
   * Total price of a processed job: the base price if the gross price is
   * below it; otherwise the gross price, less the discount when more than
   * 500 items are ordered, but never below the base price.
   */
  function ProcessedTotalPrice(job: PrintJob): (r: real)
    requires job.postProcessingChoices.Some?
    ensures r >= BasePrice
    ensures r <= Max(ProcessedGrossPrice(job), BasePrice)
  {
    var gross := ProcessedGrossPrice(job);
    if gross < BasePrice then BasePrice
    else if job.printQuantity > DiscountThreshold then
      var discounted := gross - gross * Discount;
      if discounted < BasePrice then BasePrice else discounted
    else gross
  }

  /** Orders of up to 500 items (500 included) that reach the base price pay the gross price. */
  lemma NoDiscountUpToThreshold(job: PrintJob)
    requires job.postProcessingChoices.Some?
    requires ProcessedGrossPrice(job) >= BasePrice && job.printQuantity <= 500
    ensures ProcessedTotalPrice(job) == ProcessedGrossPrice(job)
  {
  }

  /** Orders of more than 500 items that reach the base price pay 90% of gross, floored. */
  lemma DiscountAboveThreshold(job: PrintJob)
    requires job.postProcessingChoices.Some?
    requires ProcessedGrossPrice(job) >= BasePrice && job.printQuantity > 500
    ensures ProcessedTotalPrice(job) == Max(ProcessedGrossPrice(job) * 0.9, BasePrice)
    ensures ProcessedTotalPrice(job) <= ProcessedGrossPrice(job)
  {
  }

  /** Without post-processing, a processed job in any plastic but Acrylic costs what a plain job does. */
  lemma NoChoicesMatchesPlainGross(job: PrintJob)
    requires job.postProcessingChoices == Some([])
    requires job.plasticType != "Acrylic"
    ensures ProcessedGrossPrice(job) == StandardGrossPrice(job.(postProcessingChoices := None))
  {
  }

  /** 600 polished ABS gears of 1000 mm3: gross 36300, discounted to 32670. */
  lemma PolishedGearsExample()
    ensures var job := PrintJob(101, "C2", 600, 1000.0, "gear", "ABS", Some(["Polishing"]));
      ProcessedGrossPrice(job) == 36300.0 && ProcessedTotalPrice(job) == 32670.0
  {
    var job := PrintJob(101, "C2", 600, 1000.0, "gear", "ABS", Some(["Polishing"]));
    assert ["Polishing"][..0] == [];
    assert PostProcessingCost(["Polishing"], 1000.0) == 0.50;
  }

  // ---------------------------------------------------------------------
  // Dispatch: a processed job uses its own pricing, a plain job the base one

  function GrossPrice(job: PrintJob): (r: real)
    ensures job.volume >= 0.0 && job.printQuantity >= 0 ==> r >= 0.0
    ensures job.printQuantity == 0 ==> r == 0.0
  {
    if job.postProcessingChoices.Some? then ProcessedGrossPrice(job) else StandardGrossPrice(job)
  }

  /** Whatever its kind, no job is billed below the base price nor above its gross price and the base price. */
  function TotalPrice(job: PrintJob): (r: real)
    ensures BasePrice <= r <= Max(GrossPrice(job), BasePrice)
  {
    if job.postProcessingChoices.Some? then ProcessedTotalPrice(job) else StandardTotalPrice(job)
  }
}
