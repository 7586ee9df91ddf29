/** The quote wizard's state store: the step on screen, the customer's
    selections, the contact form and the last price calculation, with the
    actions the wizard's pages call. */
module Store {
  import opened Types
  import opened Pricing
  import AddOnMap

  const FirstStep := 1
  const LastStep := 7

  /** A copy of the whole store state as a value. */
  datatype WizardState = WizardState(
    currentStep: int,
    eventType: Option<EventType>,
    serviceType: Option<ServiceType>,
    selectedPackage: Option<Package>,
    photoPostProduction: Option<PostProductionPlan>,
    videoPostProduction: Option<PostProductionPlan>,
    addOns: seq<AddOnLine>,
    customer: CustomerInfo,
    calculation: Option<PriceCalculation>)

  /** The state a new wizard starts in and `reset` returns to. */
  const Initial := WizardState(FirstStep, None, None, None, None, None, [], EmptyCustomer, None)

  /** The step `nextStep` (forward) or `prevStep` moves to: one step on, and
      no further than the first or the last step. */
  function Stepped(step: int, forward: bool): (r: int)
    ensures FirstStep <= step <= LastStep ==> FirstStep <= r <= LastStep
    ensures forward ==> step <= r <= step + 1
    ensures !forward ==> step - 1 <= r <= step
    ensures r == step <==> (if forward then step >= LastStep else step <= FirstStep)
  {
    if forward then (if step < LastStep then step + 1 else step)
    else (if step > FirstStep then step - 1 else step)
  }

  /** The step reached after a run of `nextStep` (true) and `prevStep` (false) calls. */
  function Walk(step: int, moves: seq<bool>): int
    decreases |moves|
  {
    if moves == [] then step else Walk(Stepped(step, moves[0]), moves[1..])
  }

  /** However the navigation buttons are pressed, the wizard never leaves steps 1 to 7. */
  lemma {:induction false} StepsStayInRange(step: int, moves: seq<bool>)
    requires FirstStep <= step <= LastStep
    ensures FirstStep <= Walk(step, moves) <= LastStep
    decreases |moves|
  {
    if moves != [] {
      StepsStayInRange(Stepped(step, moves[0]), moves[1..]);
    }
  }

  /** Pressing "next" `n` times moves `n` steps on, stopping at the last step. */
  lemma {:induction false} ForwardWalk(step: int, n: nat)
    requires FirstStep <= step <= LastStep
    ensures Walk(step, seq(n, _ => true)) == if step + n <= LastStep then step + n else LastStep
    decreases n
  {
    if n > 0 {
      assert seq(n, _ => true)[1..] == seq(n - 1, _ => true);
      ForwardWalk(Stepped(step, true), n - 1);
    }
  }

  /** A field of a partial update: a present value replaces, an absent one keeps. */
  function Override<T>(current: Option<T>, update: Option<T>): Option<T> {
    if update.Some? then update else current
  }

  /** The fields present in `info` replace those of `customer`; the others stay. */
  function MergeCustomer(customer: CustomerInfo, info: CustomerInfo): (r: CustomerInfo)
    ensures info.name.Some? ==> r.name == info.name
    ensures info.name.None? ==> r.name == customer.name
    ensures info.eventDate.Some? ==> r.eventDate == info.eventDate
    ensures info.eventDate.None? ==> r.eventDate == customer.eventDate
    ensures info.phone.Some? ==> r.phone == info.phone
    ensures info.phone.None? ==> r.phone == customer.phone
    ensures info.eventLocation.Some? ==> r.eventLocation == info.eventLocation
    ensures info.eventLocation.None? ==> r.eventLocation == customer.eventLocation
    ensures info.notes.Some? ==> r.notes == info.notes
    ensures info.notes.None? ==> r.notes == customer.notes
  {
    CustomerInfo(
      Override(customer.name, info.name),
      Override(customer.phone, info.phone),
      Override(customer.eventDate, info.eventDate),
      Override(customer.eventLocation, info.eventLocation),
      Override(customer.notes, info.notes))
  }

  /** Applying the same partial update twice is applying it once; an empty update changes nothing. */
  lemma MergeCustomerIdempotent(customer: CustomerInfo, info: CustomerInfo)
    ensures MergeCustomer(MergeCustomer(customer, info), info) == MergeCustomer(customer, info)
    ensures MergeCustomer(customer, EmptyCustomer) == customer
  {
  }

  /** Two updates in a row are one update with the later fields winning. */
  lemma MergeCustomerCompose(customer: CustomerInfo, first: CustomerInfo, second: CustomerInfo)
    ensures MergeCustomer(MergeCustomer(customer, first), second)
      == MergeCustomer(customer, MergeCustomer(first, second))
  {
  }

  /** What `recalculate` hands the price calculator: the current selection, the
      service type defaulting to photo, and the customer's event date. */
  function PricingInput(s: WizardState): (input: PriceInput)
    ensures input.addOns == s.addOns && input.selectedPackage == s.selectedPackage
    ensures s.serviceType.Some? ==> input.serviceType == s.serviceType.value
    ensures s.serviceType.None? ==> input.serviceType == Photo
    ensures input.photoPostProduction == s.photoPostProduction
    ensures input.videoPostProduction == s.videoPostProduction
    ensures input.eventDate == s.customer.eventDate
  {
    PriceInput(s.selectedPackage, s.photoPostProduction, s.videoPostProduction, s.addOns,
               if s.serviceType.Some? then s.serviceType.value else Photo,
               s.customer.eventDate)
  }

  /** The wizard's store. The add-on selection is a map from item id to the item
      and a positive quantity. */
  class QuoteStore {
    var currentStep: int
    var eventType: Option<EventType>
    var serviceType: Option<ServiceType>
    var selectedPackage: Option<Package>
    var photoPostProduction: Option<PostProductionPlan>
    var videoPostProduction: Option<PostProductionPlan>
    var addOns: seq<AddOnLine>
    var customer: CustomerInfo
    var calculation: Option<PriceCalculation>

    function State(): WizardState
      reads this
    {
      WizardState(currentStep, eventType, serviceType, selectedPackage, photoPostProduction,
                  videoPostProduction, addOns, customer, calculation)
    }

    /** No add-on is listed twice and none is kept at a quantity below one. */
    predicate Valid()
      reads this
    {
      AddOnMap.WellFormed(addOns)
    }

    /** A new wizard, in the initial state. */
    constructor ()
      ensures State() == Initial && Valid()
    {
      currentStep := FirstStep;
      eventType := None;
      serviceType := None;
      selectedPackage := None;
      photoPostProduction := None;
      videoPostProduction := None;
      addOns := [];
      customer := EmptyCustomer;
      calculation := None;
    }

    /** `setStep`: jumps to any step, unchecked. */
    method SetStep(step: int)
      modifies this
      ensures State() == old(State()).(currentStep := step)
      ensures old(Valid()) ==> Valid()
    {
      currentStep := step;
    }

    /** `nextStep`: one step on, unless on the last step. */
    method NextStep()
      modifies this
      ensures State() == old(State()).(currentStep := Stepped(old(currentStep), true))
      ensures old(Valid()) ==> Valid()
    {
      if currentStep < LastStep {
        currentStep := currentStep + 1;
      }
    }

    /** `prevStep`: one step back, unless on the first step. */
    method PrevStep()
      modifies this
      ensures State() == old(State()).(currentStep := Stepped(old(currentStep), false))
      ensures old(Valid()) ==> Valid()
    {
      if currentStep > FirstStep {
        currentStep := currentStep - 1;
      }
    }

    /** `setEventType`: records the occasion and clears every choice made after
      it: service type, package, both post-production plans, the add-ons and
      the stale price. */
    method SetEventType(t: EventType)
      modifies this
      ensures State() == old(State()).(eventType := Some(t), serviceType := None, selectedPackage := None,
        photoPostProduction := None, videoPostProduction := None, addOns := [], calculation := None)
      ensures Valid()
    {
      eventType := Some(t);
      serviceType := None;
      selectedPackage := None;
      photoPostProduction := None;
      videoPostProduction := None;
      addOns := [];
      calculation := None;
    }

    /** `setServiceType`: records the service and clears the package, both
      post-production plans, the add-ons and the stale price. */
    method SetServiceType(t: ServiceType)
      modifies this
      ensures State() == old(State()).(serviceType := Some(t), selectedPackage := None,
        photoPostProduction := None, videoPostProduction := None, addOns := [], calculation := None)
      ensures Valid()
    {
      serviceType := Some(t);
      selectedPackage := None;
      photoPostProduction := None;
      videoPostProduction := None;
      addOns := [];
      calculation := None;
    }

    /** `selectPackage`. */
    method SelectPackage(pkg: Package)
      modifies this
      ensures State() == old(State()).(selectedPackage := Some(pkg))
      ensures old(Valid()) ==> Valid()
    {
      selectedPackage := Some(pkg);
    }

    /** `setPhotoPostProduction`; `None` clears the choice. */
    method SetPhotoPostProduction(plan: Option<PostProductionPlan>)
      modifies this
      ensures State() == old(State()).(photoPostProduction := plan)
      ensures old(Valid()) ==> Valid()
    {
      photoPostProduction := plan;
    }

    /** `setVideoPostProduction`; `None` clears the choice. */
    method SetVideoPostProduction(plan: Option<PostProductionPlan>)
      modifies this
      ensures State() == old(State()).(videoPostProduction := plan)
      ensures old(Valid()) ==> Valid()
    {
      videoPostProduction := plan;
    }

    /** `setAddOnQuantity`: a quantity of zero or less removes the item, any
      other quantity sets it, in place if the item is already listed and at the
      end otherwise. */
    method SetAddOnQuantity(item: AddOnItem, quantity: int)
      requires Valid()
      modifies this
      ensures Valid()
      ensures State() == old(State()).(addOns :=
        if quantity <= 0 then AddOnMap.Remove(old(addOns), item.id) else AddOnMap.Put(old(addOns), item, quantity))
      ensures AddOnMap.Get(addOns, item.id) == if quantity <= 0 then None else Some(AddOnLine(item, quantity))
    {
      if quantity <= 0 {
        addOns := AddOnMap.Remove(addOns, item.id);
      } else {
        AddOnMap.PutKeepsWellFormed(addOns, item, quantity);
        addOns := AddOnMap.Put(addOns, item, quantity);
      }
    }

    /** `updateCustomer`: merges the fields given into the contact form. */
    method UpdateCustomer(info: CustomerInfo)
      modifies this
      ensures State() == old(State()).(customer := MergeCustomer(old(customer), info))
      ensures old(Valid()) ==> Valid()
    {
      customer := MergeCustomer(customer, info);
    }

    /** `recalculate`: prices the current selection against the discount rules;
      `daysToEventDate` is the clock's count of days from today to the form's
      event date. */
    method Recalculate(discounts: seq<Discount>, daysToEventDate: int)
      modifies this
      ensures State() == old(State()).(calculation :=
        Some(Calculation(PricingInput(old(State())), discounts, daysToEventDate)))
      ensures old(Valid()) ==> Valid()
    {
      var result := CalculatePrice(PricingInput(State()), discounts, daysToEventDate);
      calculation := Some(result);
    }

    /** `reset`: back to the initial state. */
    method Reset()
      modifies this
      ensures State() == Initial && Valid()
    {
      currentStep := FirstStep;
      eventType := None;
      serviceType := None;
      selectedPackage := None;
      photoPostProduction := None;
      videoPostProduction := None;
      addOns := [];
      customer := EmptyCustomer;
      calculation := None;
    }
  }
}
