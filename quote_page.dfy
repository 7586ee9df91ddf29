/** The quote wizard page: when "next" is enabled on each step, and the quote
    record built from the wizard's state and stored when the customer submits. */
module QuotePage {
  import opened Types
  import opened Pricing
  import opened Store
  import Storage

  /** JavaScript truthiness of an optional string: present and not empty. */
  predicate Filled(s: Option<string>) {
    s.Some? && s.value != ""
  }

  /** Every post-production plan the service needs is chosen; while no service
      is chosen, both are needed. */
  predicate PlansChosen(serviceType: Option<ServiceType>, photo: Option<PostProductionPlan>,
                        video: Option<PostProductionPlan>) {
    var st := if serviceType.Some? then serviceType.value else Both;
    (IncludesPhoto(st) ==> photo.Some?) && (IncludesVideo(st) ==> video.Some?)
  }

  /** Name, phone and event date are filled in. */
  predicate ContactComplete(c: CustomerInfo) {
    Filled(c.name) && Filled(c.phone) && Filled(c.eventDate)
  }

  /** `canProceed`: whether "next" is enabled on a step. Step 5 (add-ons) and
      every other step number always allow it. */
  function CanProceed(s: WizardState, step: int): (ok: bool)
    ensures step == 1 ==> (ok <==> s.eventType.Some?)
    ensures step == 2 ==> (ok <==> s.serviceType.Some?)
    ensures step == 3 ==> (ok <==> s.selectedPackage.Some?)
    ensures step == 4 ==> (ok <==> PlansChosen(s.serviceType, s.photoPostProduction, s.videoPostProduction))
    ensures step == 6 ==> (ok <==> ContactComplete(s.customer))
    ensures step !in {1, 2, 3, 4, 6} ==> ok
  {
    if step == 1 then s.eventType.Some?
    else if step == 2 then s.serviceType.Some?
    else if step == 3 then s.selectedPackage.Some?
    else if step == 4 then
      if s.serviceType == Some(Photo) then s.photoPostProduction.Some?
      else if s.serviceType == Some(Video) then s.videoPostProduction.Some?
      else s.photoPostProduction.Some? && s.videoPostProduction.Some?
    else if step == 5 then true
    else if step == 6 then Filled(s.customer.name) && Filled(s.customer.phone) && Filled(s.customer.eventDate)
    else true
  }

  /** Everything a quote needs has been chosen and filled in. */
  predicate ReadyToQuote(s: WizardState) {
    && s.eventType.Some? && s.serviceType.Some? && s.selectedPackage.Some?
    && PlansChosen(s.serviceType, s.photoPostProduction, s.videoPostProduction)
    && ContactComplete(s.customer)
  }

  /** "Next" is enabled on every step before the last exactly when the wizard is ready to quote. */
  lemma AllStepsPassIffReady(s: WizardState)
    ensures (forall step :: FirstStep <= step < LastStep ==> CanProceed(s, step)) <==> ReadyToQuote(s)
  {
    if forall step :: FirstStep <= step < LastStep ==> CanProceed(s, step) {
      assert CanProceed(s, 1) && CanProceed(s, 2) && CanProceed(s, 3);
      assert CanProceed(s, 4) && CanProceed(s, 6);
    }
  }

  /** After a new event type, the service, package and post-production steps
      must be completed again and the old price is gone. */
  lemma EventTypeClearsLaterSteps(s: WizardState, t: EventType)
    ensures var s' := s.(eventType := Some(t), serviceType := None, selectedPackage := None,
      photoPostProduction := None, videoPostProduction := None, addOns := [], calculation := None);
      CanProceed(s', 1) && !CanProceed(s', 2) && !CanProceed(s', 3) && !CanProceed(s', 4)
      && !ReadyToQuote(s')
  {
  }

  /** After a new service type, the package and post-production steps must be
      completed again, whichever service was chosen. */
  lemma ServiceTypeClearsLaterSteps(s: WizardState, t: ServiceType)
    ensures var s' := s.(serviceType := Some(t), selectedPackage := None,
      photoPostProduction := None, videoPostProduction := None, addOns := [], calculation := None);
      CanProceed(s', 2) && !CanProceed(s', 3) && !CanProceed(s', 4) && !ReadyToQuote(s')
  {
  }

  // ---------------------------------------------------------------------------
  // The quote record

  /** An add-on line of the quote: the item's id, name and unit price, the
      quantity, and their product. */
  function QuoteLine(line: AddOnLine): QuoteAddOn {
    QuoteAddOn(line.item.id, line.item.name, line.item.unitPrice, line.quantity, line.item.unitPrice * line.quantity)
  }

  /** One quote line per add-on, in the map's order. */
  function QuoteLines(lines: seq<AddOnLine>): (r: seq<QuoteAddOn>)
    ensures |r| == |lines| && forall i :: 0 <= i < |r| ==> r[i] == QuoteLine(lines[i])
  {
    if lines == [] then [] else [QuoteLine(lines[0])] + QuoteLines(lines[1..])
  }

  /** One quote discount per applied discount, carrying its id, name and amount, in order. */
  function QuoteDiscounts(ds: seq<AppliedDiscount>): (r: seq<QuoteDiscount>)
    ensures |r| == |ds| && forall i :: 0 <= i < |r| ==> r[i] == QuoteDiscount(ds[i].id, ds[i].name, ds[i].amount)
  {
    if ds == [] then [] else [QuoteDiscount(ds[0].id, ds[0].name, ds[0].amount)] + QuoteDiscounts(ds[1..])
  }

  function PlanRefOf(plan: Option<PostProductionPlan>): Option<PlanRef> {
    if plan.Some? then Some(PlanRef(plan.value.id, plan.value.name, plan.value.price)) else None
  }

  /** The quote record `handleSubmit` builds, or nothing when no package is
      selected or no price has been calculated. `id`, `createdAt` and
      `expiresAt` come from the id generator and the clock. */
  function BuildQuote(s: WizardState, id: string, createdAt: string, expiresAt: string): (q: Option<Quote>)
    ensures q.None? <==> s.selectedPackage.None? || s.calculation.None?
    ensures q.Some? ==> (
      var pkg, price := s.selectedPackage.value, s.calculation.value;
      q.value.id == id && q.value.status == Pending && q.value.customer == s.customer
      && q.value.eventType == s.eventType && q.value.serviceType == s.serviceType
      && q.value.selectedPackage == PackageRef(pkg.id, pkg.name, pkg.basePrice)
      && q.value.photoPlan == PlanRefOf(s.photoPostProduction)
      && q.value.videoPlan == PlanRefOf(s.videoPostProduction)
      && q.value.addOns == QuoteLines(s.addOns)
      && q.value.subtotal == price.subtotal
      && q.value.discounts == QuoteDiscounts(price.discounts)
      && q.value.totalDiscount == price.totalDiscount
      && q.value.grandTotal == price.grandTotal)
  {
    if s.selectedPackage.None? || s.calculation.None? then None
    else
      var pkg := s.selectedPackage.value;
      var price := s.calculation.value;
      Some(Quote(
        id, createdAt, expiresAt, s.customer, s.eventType, s.serviceType,
        PackageRef(pkg.id, pkg.name, pkg.basePrice),
        PlanRefOf(s.photoPostProduction), PlanRefOf(s.videoPostProduction),
        QuoteLines(s.addOns),
        price.subtotal, QuoteDiscounts(price.discounts), price.totalDiscount, price.grandTotal,
        Pending))
  }

  /** Sum of the quote's add-on line subtotals. */
  function LinesSubtotal(lines: seq<QuoteAddOn>): int
    decreases |lines|
  {
    if lines == [] then 0 else LinesSubtotal(lines[..|lines| - 1]) + lines[|lines| - 1].subtotal
  }

  /** Sum of the quote's discount amounts. */
  function DiscountsTotal(ds: seq<QuoteDiscount>): int {
    if ds == [] then 0 else ds[0].amount + DiscountsTotal(ds[1..])
  }

  function RefPrice(plan: Option<PlanRef>): int {
    if plan.Some? then plan.value.price else 0
  }

  /** The post-production charge the quote's own plans and service type add up
      to; an unset service type is charged as photo. */
  function QuotePlansPrice(q: Quote): int {
    var st := if q.serviceType.Some? then q.serviceType.value else Photo;
    (if IncludesPhoto(st) then RefPrice(q.photoPlan) else 0) + (if IncludesVideo(st) then RefPrice(q.videoPlan) else 0)
  }

  lemma {:induction false} QuoteLinesTotal(lines: seq<AddOnLine>)
    ensures LinesSubtotal(QuoteLines(lines)) == AddOnsTotal(lines)
    decreases |lines|
  {
    if lines != [] {
      var n := |lines|;
      QuoteLinesTotal(lines[..n - 1]);
      assert QuoteLines(lines)[..n - 1] == QuoteLines(lines[..n - 1]);
    }
  }

  lemma {:induction false} QuoteDiscountsTotal(ds: seq<AppliedDiscount>)
    ensures DiscountsTotal(QuoteDiscounts(ds)) == SumAmounts(ds)
  {
    if ds != [] {
      QuoteDiscountsTotal(ds[1..]);
      assert QuoteDiscounts(ds)[1..] == QuoteDiscounts(ds[1..]);
    }
  }

  /** The quote's own plans, under its own service type, are charged what the
      calculator charged for post-production. */
  lemma QuotePlansPriceIs(s: WizardState, q: Quote)
    requires q.serviceType == s.serviceType
    requires q.photoPlan == PlanRefOf(s.photoPostProduction) && q.videoPlan == PlanRefOf(s.videoPostProduction)
    ensures QuotePlansPrice(q) == PostProductionPrice(PricingInput(s).serviceType, s.photoPostProduction, s.videoPostProduction)
  {
    assert RefPrice(PlanRefOf(s.photoPostProduction)) == PlanPrice(s.photoPostProduction);
    assert RefPrice(PlanRefOf(s.videoPostProduction)) == PlanPrice(s.videoPostProduction);
  }

  /** A quote built from a current price adds up on its own: the subtotal is
      the package's base price plus the plans the service uses plus the add-on
      lines, the total discount is the sum of at most two listed discounts,
      and the grand total is the subtotal less the discount, but never below zero. */
  lemma QuoteAddsUp(s: WizardState, discounts: seq<Discount>, daysToEventDate: int,
                    id: string, createdAt: string, expiresAt: string)
    requires s.selectedPackage.Some?
    requires s.calculation == Some(Calculation(PricingInput(s), discounts, daysToEventDate))
    ensures var q := BuildQuote(s, id, createdAt, expiresAt);
      && q.Some?
      && q.value.subtotal == q.value.selectedPackage.basePrice + QuotePlansPrice(q.value) + LinesSubtotal(q.value.addOns)
      && |q.value.discounts| <= 2
      && q.value.totalDiscount == DiscountsTotal(q.value.discounts)
      && q.value.grandTotal == Max(0, q.value.subtotal - q.value.totalDiscount)
  {
    var input := PricingInput(s);
    var price := Calculation(input, discounts, daysToEventDate);
    var q := BuildQuote(s, id, createdAt, expiresAt).value;
    CalculationTotals(input, discounts, daysToEventDate);
    assert q.selectedPackage.basePrice == price.packagePrice;
    assert QuotePlansPrice(q) == price.postProductionPrice by {
      QuotePlansPriceIs(s, q);
    }
    assert LinesSubtotal(q.addOns) == price.addOnsPrice by {
      QuoteLinesTotal(s.addOns);
    }
    assert DiscountsTotal(q.discounts) == price.totalDiscount by {
      QuoteDiscountsTotal(price.discounts);
    }
  }

  /** `handleSubmit`: builds the quote under a new id and stores it; without a
      package or a price nothing happens. The id is the fresh one (one past
      the day's largest number), so the new quote is put first and no stored
      quote is lost. */
  method Submit(store: QuoteStore, storage: Storage.QuoteStorage, dateStr: string, createdAt: string, expiresAt: string)
    modifies storage
    ensures var q := BuildQuote(store.State(), Storage.FreshQuoteId(old(storage.quotes), dateStr), createdAt, expiresAt);
      storage.quotes == if q.Some? then [q.value] + old(storage.quotes) else old(storage.quotes)
  {
    var s := store.State();
    if s.selectedPackage.None? || s.calculation.None? {
      return;
    }
    var id := Storage.FreshQuoteId(storage.quotes, dateStr);
    var q := BuildQuote(s, id, createdAt, expiresAt);
    Storage.SaveFreshKeepsAll(storage.quotes, q.value, dateStr);
    storage.SaveQuote(q.value);
  }
}
