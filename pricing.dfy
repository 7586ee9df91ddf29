/** The price calculator: package price, post-production, add-ons, and the
    discount rules, of which the best qualifying percentage rule and the best
    qualifying fixed rule are applied. Money is an integer amount. */
module Pricing {
  import opened Types

  datatype AppliedDiscount = AppliedDiscount(id: string, name: string, amount: int)

  datatype PriceCalculation = PriceCalculation(
    packagePrice: int,
    postProductionPrice: int,
    addOnsPrice: int,
    subtotal: int,
    discounts: seq<AppliedDiscount>,
    totalDiscount: int,
    grandTotal: int)

  /** The selection the calculator prices. `eventDate` is the raw form value;
      the clock-dependent day count is passed to the calculator separately. */
  datatype PriceInput = PriceInput(
    selectedPackage: Option<Package>,
    photoPostProduction: Option<PostProductionPlan>,
    videoPostProduction: Option<PostProductionPlan>,
    addOns: seq<AddOnLine>,
    serviceType: ServiceType,
    eventDate: Option<string>)

  /** The facts every discount rule is checked against. */
  datatype Context = Context(subtotal: int, serviceType: ServiceType, packageId: Option<string>, daysUntilEvent: int)

  /** A qualifying rule together with the amount it would take off. */
  datatype Candidate = Candidate(discount: Discount, amount: int)

  predicate IncludesPhoto(st: ServiceType) { st == Photo || st == Both }
  predicate IncludesVideo(st: ServiceType) { st == Video || st == Both }

  /** A numeric condition JavaScript treats as set: present and not zero. */
  predicate IsSetThreshold(t: Option<int>) { t.Some? && t.value != 0 }

  /** A list condition JavaScript treats as set: present and not empty. */
  predicate IsNonEmptyList<T>(l: Option<seq<T>>) { l.Some? && |l.value| > 0 }

  /** Whether every condition a discount declares holds. The thresholds are
      inclusive, a zero or absent threshold and an empty or absent list impose
      nothing, and the package list is only consulted when a package (with a
      non-empty id) is selected. */
  function CheckDiscountConditions(discount: Discount, subtotal: int, serviceType: ServiceType,
                                   packageId: Option<string>, daysUntilEvent: int): (ok: bool)
    ensures var c := discount.conditions;
      ok <==>
        && (IsSetThreshold(c.minTotal) ==> subtotal >= c.minTotal.value)
        && (IsSetThreshold(c.earlyBirdDays) ==> daysUntilEvent >= c.earlyBirdDays.value)
        && (IsNonEmptyList(c.serviceTypes) ==> serviceType in c.serviceTypes.value)
        && (IsNonEmptyList(c.packageIds) && packageId.Some? && packageId.value != "" ==>
              packageId.value in c.packageIds.value)
  {
    var c := discount.conditions;
    if IsSetThreshold(c.minTotal) && subtotal < c.minTotal.value then false
    else if IsSetThreshold(c.earlyBirdDays) && daysUntilEvent < c.earlyBirdDays.value then false
    else if IsNonEmptyList(c.serviceTypes) && serviceType !in c.serviceTypes.value then false
    else if IsNonEmptyList(c.packageIds) && packageId.Some? && packageId.value != ""
            && packageId.value !in c.packageIds.value then false
    else true
  }

  /** The percentage of the subtotal rounded as `Math.round` rounds: to the
      nearest integer, halves rounded up. */
  function RoundPercent(subtotal: int, percent: int): (r: int)
    ensures 100 * r - 50 <= subtotal * percent < 100 * r + 50
  {
    (subtotal * percent + 50) / 100
  }

  function DiscountAmount(d: Discount, subtotal: int): int {
    if d.kind == Percentage then RoundPercent(subtotal, d.value) else d.value
  }

  /** An active rule of the given kind whose conditions hold. */
  predicate Eligible(d: Discount, kind: DiscountKind, ctx: Context) {
    && d.isActive
    && d.kind == kind
    && CheckDiscountConditions(d, ctx.subtotal, ctx.serviceType, ctx.packageId, ctx.daysUntilEvent)
  }

  /** The qualifying rules of one kind with their amounts, in catalog order. */
  function Candidates(ds: seq<Discount>, kind: DiscountKind, ctx: Context): (r: seq<Candidate>)
    ensures |r| <= |ds|
    ensures forall i :: 0 <= i < |r| ==>
      && Eligible(r[i].discount, kind, ctx)
      && r[i].amount == DiscountAmount(r[i].discount, ctx.subtotal)
    decreases |ds|
  {
    if ds == [] then []
    else
      var d := ds[|ds| - 1];
      Candidates(ds[..|ds| - 1], kind, ctx)
        + (if Eligible(d, kind, ctx) then [Candidate(d, DiscountAmount(d, ctx.subtotal))] else [])
  }

  /** The running best of a left-to-right scan that replaces the best only on a
      strictly larger amount, so the earliest maximum wins. */
  function Best(cs: seq<Candidate>): (b: Option<Candidate>)
    ensures b.Some? <==> cs != []
    ensures b.Some? ==> b.value in cs && forall i :: 0 <= i < |cs| ==> cs[i].amount <= b.value.amount
    decreases |cs|
  {
    if cs == [] then None
    else
      var b := Best(cs[..|cs| - 1]);
      var c := cs[|cs| - 1];
      if b.None? || c.amount > b.value.amount then Some(c) else b
  }

  function AppliedOf(c: Candidate): AppliedDiscount {
    AppliedDiscount(c.discount.id, c.discount.name, c.amount)
  }

  function AppliedList(b: Option<Candidate>): seq<AppliedDiscount> {
    if b.Some? then [AppliedOf(b.value)] else []
  }

  function AmountOf(b: Option<Candidate>): int {
    if b.Some? then b.value.amount else 0
  }

  function SumAmounts(ds: seq<AppliedDiscount>): int {
    if ds == [] then 0 else ds[0].amount + SumAmounts(ds[1..])
  }

  function LineTotal(line: AddOnLine): int {
    line.item.unitPrice * line.quantity
  }

  /** Sum of `unitPrice * quantity` over every add-on line. */
  function AddOnsTotal(lines: seq<AddOnLine>): int
    decreases |lines|
  {
    if lines == [] then 0 else AddOnsTotal(lines[..|lines| - 1]) + LineTotal(lines[|lines| - 1])
  }

  function PackagePrice(pkg: Option<Package>): int {
    if pkg.Some? then pkg.value.basePrice else 0
  }

  function PackageId(pkg: Option<Package>): Option<string> {
    if pkg.Some? then Some(pkg.value.id) else None
  }

  function PlanPrice(plan: Option<PostProductionPlan>): int {
    if plan.Some? then plan.value.price else 0
  }

  /** The photo plan counts only for a photo component, the video plan only for a video one. */
  function PostProductionPrice(st: ServiceType, photo: Option<PostProductionPlan>, video: Option<PostProductionPlan>): (r: int)
    ensures st == Photo ==> r == PlanPrice(photo)
    ensures st == Video ==> r == PlanPrice(video)
    ensures st == Both ==> r == PlanPrice(photo) + PlanPrice(video)
  {
    (if IncludesPhoto(st) then PlanPrice(photo) else 0) + (if IncludesVideo(st) then PlanPrice(video) else 0)
  }

  /** Days until the event: the clock's count when an event date is given (a
      non-empty string), and 0 otherwise. */
  function DaysUntilEvent(eventDate: Option<string>, daysToEventDate: int): (r: int)
    ensures eventDate.Some? && eventDate.value != "" ==> r == daysToEventDate
    ensures eventDate.None? || eventDate.value == "" ==> r == 0
  {
    if eventDate.Some? && eventDate.value != "" then daysToEventDate else 0
  }

  function Subtotal(input: PriceInput): int {
    PackagePrice(input.selectedPackage)
      + PostProductionPrice(input.serviceType, input.photoPostProduction, input.videoPostProduction)
      + AddOnsTotal(input.addOns)
  }

  function DiscountContext(input: PriceInput, daysToEventDate: int): Context {
    Context(Subtotal(input), input.serviceType, PackageId(input.selectedPackage),
            DaysUntilEvent(input.eventDate, daysToEventDate))
  }

  function Max(a: int, b: int): int { if a >= b then a else b }

  /** The breakdown for a selection, given the discount context and the
      chosen percentage and fixed candidates. */
  function Breakdown(input: PriceInput, ctx: Context, percentage: Option<Candidate>, fixed: Option<Candidate>): PriceCalculation {
    var total := AmountOf(percentage) + AmountOf(fixed);
    PriceCalculation(
      PackagePrice(input.selectedPackage),
      PostProductionPrice(input.serviceType, input.photoPostProduction, input.videoPostProduction),
      AddOnsTotal(input.addOns),
      ctx.subtotal,
      AppliedList(percentage) + AppliedList(fixed),
      total,
      Max(0, ctx.subtotal - total))
  }

  /** What the calculator returns for a selection, a rule list and the clock's day count. */
  function Calculation(input: PriceInput, discounts: seq<Discount>, daysToEventDate: int): PriceCalculation {
    var ctx := DiscountContext(input, daysToEventDate);
    Breakdown(input, ctx, Best(Candidates(discounts, Percentage, ctx)), Best(Candidates(discounts, Fixed, ctx)))
  }

  /** One more rule at the end of the list adds at most one candidate, at the end. */
  lemma CandidatesSnoc(ds: seq<Discount>, d: Discount, kind: DiscountKind, ctx: Context)
    ensures !Eligible(d, kind, ctx) ==> Candidates(ds + [d], kind, ctx) == Candidates(ds, kind, ctx)
    ensures Eligible(d, kind, ctx) ==>
      Candidates(ds + [d], kind, ctx) == Candidates(ds, kind, ctx) + [Candidate(d, DiscountAmount(d, ctx.subtotal))]
  {
    assert (ds + [d])[..|ds|] == ds;
    assert Candidates(ds, kind, ctx) + [] == Candidates(ds, kind, ctx);
  }

  /** One more candidate replaces the running best only when strictly larger. */
  lemma BestSnoc(cs: seq<Candidate>, c: Candidate)
    ensures Best(cs + [c]) == if Best(cs).None? || c.amount > Best(cs).value.amount then Some(c) else Best(cs)
  {
    assert (cs + [c])[..|cs|] == cs;
  }

  /** Once there is a running best, one more candidate replaces it only when strictly larger. */
  lemma BestStep(cs: seq<Candidate>, c: Candidate, b: Candidate)
    requires Best(cs) == Some(b)
    ensures Best(cs + [c]) == Some(if c.amount > b.amount then c else b)
  {
    BestSnoc(cs, c);
  }

  /** The rule scan of `calculatePrice`: skips inactive and non-qualifying rules,
      keeps the percentage rule with the strictly largest amount seen so far, and
      collects every qualifying fixed rule in order. */
  method ScanDiscounts(discounts: seq<Discount>, ctx: Context)
    returns (bestPercentage: Option<Candidate>, fixedDiscounts: seq<Candidate>)
    ensures bestPercentage == Best(Candidates(discounts, Percentage, ctx))
    ensures fixedDiscounts == Candidates(discounts, Fixed, ctx)
  {
    bestPercentage := None;
    fixedDiscounts := [];
    for i := 0 to |discounts|
      invariant bestPercentage == Best(Candidates(discounts[..i], Percentage, ctx))
      invariant fixedDiscounts == Candidates(discounts[..i], Fixed, ctx)
    {
      var discount := discounts[i];
      assert discounts[..i + 1] == discounts[..i] + [discount];
      CandidatesSnoc(discounts[..i], discount, Percentage, ctx);
      CandidatesSnoc(discounts[..i], discount, Fixed, ctx);
      if !discount.isActive {
        continue;
      }
      var isApplicable := CheckDiscountConditions(discount, ctx.subtotal, ctx.serviceType, ctx.packageId, ctx.daysUntilEvent);
      if !isApplicable {
        continue;
      }
      var amount := if discount.kind == Percentage then RoundPercent(ctx.subtotal, discount.value) else discount.value;
      if discount.kind == Percentage {
        BestSnoc(Candidates(discounts[..i], Percentage, ctx), Candidate(discount, amount));
        if bestPercentage.None? || amount > bestPercentage.value.amount {
          bestPercentage := Some(Candidate(discount, amount));
        }
      } else {
        fixedDiscounts := fixedDiscounts + [Candidate(discount, amount)];
      }
    }
    assert discounts[..|discounts|] == discounts;
  }

  /** The fold over the qualifying fixed candidates that starts from the first
      and moves on only to a strictly larger amount. */
  method LargestFixed(fixedDiscounts: seq<Candidate>) returns (bestFixed: Candidate)
    requires |fixedDiscounts| > 0
    ensures Best(fixedDiscounts) == Some(bestFixed)
  {
    bestFixed := fixedDiscounts[0];
    BestSnoc([], fixedDiscounts[0]);
    assert fixedDiscounts[..1] == [] + [fixedDiscounts[0]];
    for j := 1 to |fixedDiscounts|
      invariant Best(fixedDiscounts[..j]) == Some(bestFixed)
    {
      var current := fixedDiscounts[j];
      assert fixedDiscounts[..j + 1] == fixedDiscounts[..j] + [current];
      BestStep(fixedDiscounts[..j], current, bestFixed);
      if current.amount > bestFixed.amount {
        bestFixed := current;
      }
    }
    assert fixedDiscounts[..|fixedDiscounts|] == fixedDiscounts;
  }

  /** Calculation, given its intermediate values. */
  lemma CalculationIs(input: PriceInput, discounts: seq<Discount>, daysToEventDate: int, ctx: Context,
                      percentage: Option<Candidate>, fixed: Option<Candidate>)
    requires ctx == DiscountContext(input, daysToEventDate)
    requires percentage == Best(Candidates(discounts, Percentage, ctx))
    requires fixed == Best(Candidates(discounts, Fixed, ctx))
    ensures Calculation(input, discounts, daysToEventDate) == Breakdown(input, ctx, percentage, fixed)
  {
  }

  /** Adds the photo plan's price for a photo component and the video plan's
      price for a video one. */
  method SumPostProduction(input: PriceInput) returns (postProductionPrice: int)
    ensures postProductionPrice == PostProductionPrice(input.serviceType, input.photoPostProduction, input.videoPostProduction)
  {
    postProductionPrice := 0;
    if input.serviceType == Photo || input.serviceType == Both {
      postProductionPrice := postProductionPrice + PlanPrice(input.photoPostProduction);
    }
    if input.serviceType == Video || input.serviceType == Both {
      postProductionPrice := postProductionPrice + PlanPrice(input.videoPostProduction);
    }
  }

  /** The `addOns.forEach` loop: sums `unitPrice * quantity` over the lines. */
  method SumAddOns(lines: seq<AddOnLine>) returns (addOnsPrice: int)
    ensures addOnsPrice == AddOnsTotal(lines)
  {
    addOnsPrice := 0;
    for i := 0 to |lines|
      invariant addOnsPrice == AddOnsTotal(lines[..i])
    {
      assert lines[..i + 1][..i] == lines[..i];
      addOnsPrice := addOnsPrice + lines[i].item.unitPrice * lines[i].quantity;
    }
    assert lines[..|lines|] == lines;
  }

  /** Lists the best percentage candidate, then the largest fixed one, and
      adds up their amounts. */
  method ApplyDiscounts(bestPercentage: Option<Candidate>, fixedDiscounts: seq<Candidate>)
    returns (appliedDiscounts: seq<AppliedDiscount>, totalDiscount: int)
    ensures appliedDiscounts == AppliedList(bestPercentage) + AppliedList(Best(fixedDiscounts))
    ensures totalDiscount == AmountOf(bestPercentage) + AmountOf(Best(fixedDiscounts))
  {
    appliedDiscounts := [];
    totalDiscount := 0;
    if bestPercentage.Some? {
      appliedDiscounts := appliedDiscounts + [AppliedOf(bestPercentage.value)];
      totalDiscount := totalDiscount + bestPercentage.value.amount;
    }
    assert appliedDiscounts == AppliedList(bestPercentage) && totalDiscount == AmountOf(bestPercentage);
    if |fixedDiscounts| > 0 {
      var bestFixed := LargestFixed(fixedDiscounts);
      appliedDiscounts := appliedDiscounts + [AppliedOf(bestFixed)];
      totalDiscount := totalDiscount + bestFixed.amount;
    } else {
      assert appliedDiscounts + [] == appliedDiscounts;
    }
  }

  /** The discount part of `calculatePrice`: the scan over the rules, then the
      best percentage candidate and the largest fixed one are applied. */
  method SelectDiscounts(discounts: seq<Discount>, ctx: Context)
    returns (appliedDiscounts: seq<AppliedDiscount>, totalDiscount: int)
    ensures appliedDiscounts == AppliedList(Best(Candidates(discounts, Percentage, ctx)))
                              + AppliedList(Best(Candidates(discounts, Fixed, ctx)))
    ensures totalDiscount == AmountOf(Best(Candidates(discounts, Percentage, ctx)))
                           + AmountOf(Best(Candidates(discounts, Fixed, ctx)))
  {
    var bestPercentage, fixedDiscounts := ScanDiscounts(discounts, ctx);
    appliedDiscounts, totalDiscount := ApplyDiscounts(bestPercentage, fixedDiscounts);
  }

  /** The first part of `calculatePrice`: the package, post-production and
      add-on charges, and the facts the discount rules are checked against. */
  method Charges(input: PriceInput, daysToEventDate: int)
    returns (packagePrice: int, postProductionPrice: int, addOnsPrice: int, ctx: Context)
    ensures packagePrice == PackagePrice(input.selectedPackage)
    ensures postProductionPrice == PostProductionPrice(input.serviceType, input.photoPostProduction, input.videoPostProduction)
    ensures addOnsPrice == AddOnsTotal(input.addOns)
    ensures ctx == DiscountContext(input, daysToEventDate)
  {
    packagePrice := if input.selectedPackage.Some? then input.selectedPackage.value.basePrice else 0;
    postProductionPrice := SumPostProduction(input);
    addOnsPrice := SumAddOns(input.addOns);

    var subtotal := packagePrice + postProductionPrice + addOnsPrice;
    var packageId := if input.selectedPackage.Some? then Some(input.selectedPackage.value.id) else None;
    var daysUntilEvent := if input.eventDate.Some? && input.eventDate.value != "" then daysToEventDate else 0;
    ctx := Context(subtotal, input.serviceType, packageId, daysUntilEvent);
  }

  /** `calculatePrice`: accumulates the charges, scans the rules once keeping the
      best percentage rule and collecting the fixed ones, then reduces the fixed
      ones to the largest. */
  method CalculatePrice(input: PriceInput, discounts: seq<Discount>, daysToEventDate: int)
    returns (result: PriceCalculation)
    ensures result == Calculation(input, discounts, daysToEventDate)
  {
    var packagePrice, postProductionPrice, addOnsPrice, ctx := Charges(input, daysToEventDate);
    var subtotal := ctx.subtotal;
    var appliedDiscounts, totalDiscount := SelectDiscounts(discounts, ctx);

    var grandTotal := if 0 >= subtotal - totalDiscount then 0 else subtotal - totalDiscount;
    result := PriceCalculation(packagePrice, postProductionPrice, addOnsPrice, subtotal,
                               appliedDiscounts, totalDiscount, grandTotal);
  }

  // ---------------------------------------------------------------------------
  // Properties of the calculation

  /** The breakdown adds up: the subtotal is the sum of its three parts, the
      total discount is the sum of the applied amounts, at most two discounts
      apply, and the grand total is the discounted subtotal floored at zero. */
  lemma CalculationTotals(input: PriceInput, discounts: seq<Discount>, daysToEventDate: int)
    ensures var r := Calculation(input, discounts, daysToEventDate);
      && r.subtotal == r.packagePrice + r.postProductionPrice + r.addOnsPrice
      && r.packagePrice == (if input.selectedPackage.Some? then input.selectedPackage.value.basePrice else 0)
      && r.postProductionPrice
           == PostProductionPrice(input.serviceType, input.photoPostProduction, input.videoPostProduction)
      && r.addOnsPrice == AddOnsTotal(input.addOns)
      && |r.discounts| <= 2
      && r.totalDiscount == SumAmounts(r.discounts)
      && r.grandTotal >= 0
      && r.grandTotal >= r.subtotal - r.totalDiscount
      && (r.grandTotal == 0 || r.grandTotal == r.subtotal - r.totalDiscount)
  {
    var ctx := DiscountContext(input, daysToEventDate);
    var p := Best(Candidates(discounts, Percentage, ctx));
    var f := Best(Candidates(discounts, Fixed, ctx));
    CalculationIs(input, discounts, daysToEventDate, ctx, p, f);
    SumAppliedLists(p, f);
  }

  lemma SumAppliedLists(p: Option<Candidate>, f: Option<Candidate>)
    ensures |AppliedList(p) + AppliedList(f)| <= 2
    ensures SumAmounts(AppliedList(p) + AppliedList(f)) == AmountOf(p) + AmountOf(f)
  {
    var applied := AppliedList(p) + AppliedList(f);
    if p.Some? && f.Some? {
      assert applied == [AppliedOf(p.value), AppliedOf(f.value)];
      assert applied[1..] == [AppliedOf(f.value)];
      assert SumAmounts([AppliedOf(f.value)]) == f.value.amount;
    } else if p.Some? {
      assert applied == [AppliedOf(p.value)];
    } else if f.Some? {
      assert applied == [AppliedOf(f.value)];
    }
  }

  /** Replacing one add-on line changes the add-on total by the difference of the two lines. */
  lemma {:induction false} AddOnsTotalReplace(lines: seq<AddOnLine>, k: int, line: AddOnLine)
    requires 0 <= k < |lines|
    ensures AddOnsTotal(lines[k := line]) == AddOnsTotal(lines) - LineTotal(lines[k]) + LineTotal(line)
    decreases |lines|
  {
    var n := |lines|;
    var updated := lines[k := line];
    if k == n - 1 {
      assert updated[..n - 1] == lines[..n - 1];
    } else {
      assert updated[..n - 1] == lines[..n - 1][k := line];
      AddOnsTotalReplace(lines[..n - 1], k, line);
    }
  }

  /** Raising the quantity of one add-on line whose unit price is not negative
      never lowers the add-on total. */
  lemma AddOnQuantityMonotone(lines: seq<AddOnLine>, k: int, quantity: int)
    requires 0 <= k < |lines|
    requires lines[k].item.unitPrice >= 0 && quantity >= lines[k].quantity
    ensures AddOnsTotal(lines[k := lines[k].(quantity := quantity)]) >= AddOnsTotal(lines)
  {
    var line := lines[k];
    var raised := line.(quantity := quantity);
    AddOnsTotalReplace(lines, k, raised);
    assert LineTotal(raised) >= LineTotal(line) by {
      MultiplyMonotone(line.item.unitPrice, line.quantity, quantity);
    }
  }

  lemma MultiplyMonotone(factor: int, a: int, b: int)
    requires factor >= 0 && a <= b
    ensures factor * a <= factor * b
  {
    assert factor * b - factor * a == factor * (b - a);
  }

  /** ... and so never lowers the subtotal of the calculation either. */
  lemma SubtotalMonotone(input: PriceInput, discounts: seq<Discount>, daysToEventDate: int, k: int, quantity: int)
    requires 0 <= k < |input.addOns|
    requires input.addOns[k].item.unitPrice >= 0 && quantity >= input.addOns[k].quantity
    ensures var raised := input.(addOns := input.addOns[k := input.addOns[k].(quantity := quantity)]);
      Calculation(raised, discounts, daysToEventDate).subtotal >= Calculation(input, discounts, daysToEventDate).subtotal
  {
    AddOnQuantityMonotone(input.addOns, k, quantity);
  }

  /** With no negative prices or quantities the add-on total is not negative. */
  lemma {:induction false} AddOnsTotalNonNegative(lines: seq<AddOnLine>)
    requires forall i :: 0 <= i < |lines| ==> lines[i].item.unitPrice >= 0 && lines[i].quantity >= 0
    ensures AddOnsTotal(lines) >= 0
    decreases |lines|
  {
    if lines != [] {
      AddOnsTotalNonNegative(lines[..|lines| - 1]);
    }
  }

  /** A percentage between 0 and 100 of a non-negative subtotal is a discount
      between 0 and the subtotal. */
  lemma PercentageWithinSubtotal(subtotal: int, percent: int)
    requires subtotal >= 0 && 0 <= percent <= 100
    ensures 0 <= RoundPercent(subtotal, percent) <= subtotal
  {
    assert 0 <= subtotal * percent <= subtotal * 100;
  }

  /** Rule `k` of its kind qualifies, takes off at least as much as every other
      qualifying rule of that kind, and strictly more than every earlier one. */
  ghost predicate FirstMax(ds: seq<Discount>, k: int, kind: DiscountKind, ctx: Context) {
    && 0 <= k < |ds|
    && Eligible(ds[k], kind, ctx)
    && (forall j :: 0 <= j < |ds| && Eligible(ds[j], kind, ctx) ==>
          DiscountAmount(ds[j], ctx.subtotal) <= DiscountAmount(ds[k], ctx.subtotal))
    && (forall j :: 0 <= j < k && Eligible(ds[j], kind, ctx) ==>
          DiscountAmount(ds[j], ctx.subtotal) < DiscountAmount(ds[k], ctx.subtotal))
  }

  ghost predicate AnyEligible(ds: seq<Discount>, kind: DiscountKind, ctx: Context) {
    exists j :: 0 <= j < |ds| && Eligible(ds[j], kind, ctx)
  }

  /** The tie-break is deterministic: at most one rule is the first maximum. */
  lemma FirstMaxUnique(ds: seq<Discount>, k1: int, k2: int, kind: DiscountKind, ctx: Context)
    requires FirstMax(ds, k1, kind, ctx) && FirstMax(ds, k2, kind, ctx)
    ensures k1 == k2
  {
  }

  /** A last rule that qualifies, after none of its kind did, is the first maximum. */
  lemma FirstMaxOnlyLast(p: seq<Discount>, d: Discount, kind: DiscountKind, ctx: Context)
    requires !AnyEligible(p, kind, ctx) && Eligible(d, kind, ctx)
    ensures FirstMax(p + [d], |p|, kind, ctx)
  {
    var ds := p + [d];
    assert forall j :: 0 <= j < |p| ==> ds[j] == p[j];
  }

  /** A last rule strictly larger than the first maximum so far becomes the first maximum. */
  lemma FirstMaxNewLast(p: seq<Discount>, d: Discount, k: int, kind: DiscountKind, ctx: Context)
    requires FirstMax(p, k, kind, ctx) && Eligible(d, kind, ctx)
    requires DiscountAmount(d, ctx.subtotal) > DiscountAmount(p[k], ctx.subtotal)
    ensures FirstMax(p + [d], |p|, kind, ctx)
  {
    var ds := p + [d];
    assert forall j :: 0 <= j < |p| ==> ds[j] == p[j];
  }

  /** A last rule that does not qualify, or is not strictly larger, leaves the first maximum. */
  lemma FirstMaxKept(p: seq<Discount>, d: Discount, k: int, kind: DiscountKind, ctx: Context)
    requires FirstMax(p, k, kind, ctx)
    requires Eligible(d, kind, ctx) ==> DiscountAmount(d, ctx.subtotal) <= DiscountAmount(p[k], ctx.subtotal)
    ensures FirstMax(p + [d], k, kind, ctx)
  {
    var ds := p + [d];
    assert forall j :: 0 <= j < |p| ==> ds[j] == p[j];
  }

  /** The running best of the rules' candidates of one kind is the earliest
      qualifying rule with the largest amount, and is absent exactly when no
      rule of that kind qualifies. */
  ghost predicate PicksFirstMax(ds: seq<Discount>, kind: DiscountKind, ctx: Context) {
    var b := Best(Candidates(ds, kind, ctx));
    && (b.None? <==> !AnyEligible(ds, kind, ctx))
    && (b.Some? ==> exists k :: FirstMax(ds, k, kind, ctx) && b.value == Candidate(ds[k], DiscountAmount(ds[k], ctx.subtotal)))
  }

  lemma AnyEligibleSnoc(p: seq<Discount>, d: Discount, kind: DiscountKind, ctx: Context)
    ensures AnyEligible(p + [d], kind, ctx) <==> AnyEligible(p, kind, ctx) || Eligible(d, kind, ctx)
  {
    var ds := p + [d];
    assert forall j :: 0 <= j < |p| ==> ds[j] == p[j];
    if Eligible(d, kind, ctx) {
      assert ds[|p|] == d;
    }
  }

  /** A qualifying last rule: it becomes the pick when nothing was picked or it
      is strictly larger; otherwise the earlier pick stays. */
  lemma PicksFirstMaxEligibleLast(p: seq<Discount>, d: Discount, kind: DiscountKind, ctx: Context)
    requires PicksFirstMax(p, kind, ctx) && Eligible(d, kind, ctx)
    ensures PicksFirstMax(p + [d], kind, ctx)
  {
    var ds := p + [d];
    CandidatesSnoc(p, d, kind, ctx);
    AnyEligibleSnoc(p, d, kind, ctx);
    var cp := Candidates(p, kind, ctx);
    var b := Best(cp);
    var c := Candidate(d, DiscountAmount(d, ctx.subtotal));
    BestSnoc(cp, c);
    if b.None? {
      FirstMaxOnlyLast(p, d, kind, ctx);
      assert ds[|p|] == d;
    } else {
      var k :| FirstMax(p, k, kind, ctx) && b.value == Candidate(p[k], DiscountAmount(p[k], ctx.subtotal));
      if c.amount > b.value.amount {
        FirstMaxNewLast(p, d, k, kind, ctx);
        assert ds[|p|] == d;
      } else {
        FirstMaxKept(p, d, k, kind, ctx);
        assert ds[k] == p[k];
      }
    }
  }

  /** A last rule that does not qualify changes nothing. */
  lemma PicksFirstMaxIneligibleLast(p: seq<Discount>, d: Discount, kind: DiscountKind, ctx: Context)
    requires PicksFirstMax(p, kind, ctx) && !Eligible(d, kind, ctx)
    ensures PicksFirstMax(p + [d], kind, ctx)
  {
    var ds := p + [d];
    CandidatesSnoc(p, d, kind, ctx);
    AnyEligibleSnoc(p, d, kind, ctx);
    var b := Best(Candidates(p, kind, ctx));
    if b.Some? {
      var k :| FirstMax(p, k, kind, ctx) && b.value == Candidate(p[k], DiscountAmount(p[k], ctx.subtotal));
      FirstMaxKept(p, d, k, kind, ctx);
      assert ds[k] == p[k];
    }
  }

  /** The scan picks, of each kind, the earliest of the qualifying rules with the
      largest amount, and picks nothing when no rule of that kind qualifies. */
  lemma {:induction false} BestIsFirstMaximum(ds: seq<Discount>, kind: DiscountKind, ctx: Context)
    ensures PicksFirstMax(ds, kind, ctx)
    decreases |ds|
  {
    if ds != [] {
      var n := |ds|;
      var p := ds[..n - 1];
      var d := ds[n - 1];
      assert ds == p + [d];
      BestIsFirstMaximum(p, kind, ctx);
      if Eligible(d, kind, ctx) {
        PicksFirstMaxEligibleLast(p, d, kind, ctx);
      } else {
        PicksFirstMaxIneligibleLast(p, d, kind, ctx);
      }
    }
  }

  /** `a` is what the calculator lists for the first maximum of the given kind. */
  ghost predicate ChosenFor(ds: seq<Discount>, kind: DiscountKind, ctx: Context, a: AppliedDiscount) {
    exists k :: FirstMax(ds, k, kind, ctx)
      && a == AppliedDiscount(ds[k].id, ds[k].name, DiscountAmount(ds[k], ctx.subtotal))
  }

  /** The applied discounts: one entry per kind that has a qualifying rule, the
      percentage rule first and the fixed rule last, each the earliest rule of
      its kind with the largest amount. Inactive and non-qualifying rules never
      appear, and the two kinds are chosen independently of each other. */
  lemma DiscountSelection(input: PriceInput, discounts: seq<Discount>, daysToEventDate: int)
    ensures var r := Calculation(input, discounts, daysToEventDate);
      var ctx := DiscountContext(input, daysToEventDate);
      && |r.discounts| == (if AnyEligible(discounts, Percentage, ctx) then 1 else 0)
                        + (if AnyEligible(discounts, Fixed, ctx) then 1 else 0)
      && (AnyEligible(discounts, Percentage, ctx) ==> ChosenFor(discounts, Percentage, ctx, r.discounts[0]))
      && (AnyEligible(discounts, Fixed, ctx) ==> ChosenFor(discounts, Fixed, ctx, r.discounts[|r.discounts| - 1]))
  {
    var ctx := DiscountContext(input, daysToEventDate);
    BestIsFirstMaximum(discounts, Percentage, ctx);
    BestIsFirstMaximum(discounts, Fixed, ctx);
  }
}
