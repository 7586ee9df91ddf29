/** The records of the quoting tool: catalog entries (packages, post-production
    plans, add-on items, discount rules), customer data and the stored quote. */
module Types {

  /** A value that may be missing (`null` or `undefined` in the source). */
  datatype Option<+T> = None | Some(value: T)

  /** Category of the photographed occasion. */
  datatype EventType = Event | Concert | Family | Wedding

  /** What is recorded: photos, video, or both. */
  datatype ServiceType = Photo | Video | Both

  /** The single medium a post-production plan belongs to. */
  datatype Medium = PhotoMedium | VideoMedium

  datatype ItemCategory = Shooting | Equipment | PostProduction | Staffing

  /** One line of a package's "what is included" list. The unit is optional
      because the admin form's text parser leaves it undefined for a line with
      fewer than three comma-separated fields. */
  datatype PackageItem = PackageItem(name: string, quantity: int, unit: Option<string>, note: Option<string>)

  datatype Package = Package(
    id: string,
    eventType: EventType,
    serviceType: ServiceType,
    name: string,
    description: string,
    basePrice: int,
    includedItems: seq<PackageItem>,
    isActive: bool,
    sortOrder: int)

  datatype PostProductionPlan = PostProductionPlan(
    id: string,
    medium: Medium,
    name: string,
    description: string,
    price: int,
    isActive: bool,
    sortOrder: int)

  /** An add-on item; `minQuantity`/`maxQuantity` are declared but enforced nowhere. */
  datatype AddOnItem = AddOnItem(
    id: string,
    category: ItemCategory,
    name: string,
    unit: string,
    unitPrice: int,
    minQuantity: Option<int>,
    maxQuantity: Option<int>,
    eventTypes: seq<EventType>,
    serviceTypes: seq<ServiceType>,
    isActive: bool,
    sortOrder: int)

  /** One entry of the wizard's add-on map: the item and how many were ordered. */
  datatype AddOnLine = AddOnLine(item: AddOnItem, quantity: int)

  datatype DiscountKind = Percentage | Fixed

  /** Every condition is optional; a zero threshold and an empty list impose nothing. */
  datatype DiscountCondition = DiscountCondition(
    minTotal: Option<int>,
    earlyBirdDays: Option<int>,
    packageIds: Option<seq<string>>,
    serviceTypes: Option<seq<ServiceType>>)

  /** A discount rule. For `Percentage` the value is a whole percent of the
      subtotal; for `Fixed` it is an amount of money. */
  datatype Discount = Discount(
    id: string,
    name: string,
    kind: DiscountKind,
    value: int,
    conditions: DiscountCondition,
    isActive: bool)

  /** Customer data as the wizard collects it: every field may still be missing. */
  datatype CustomerInfo = CustomerInfo(
    name: Option<string>,
    phone: Option<string>,
    eventDate: Option<string>,
    eventLocation: Option<string>,
    notes: Option<string>)

  const EmptyCustomer := CustomerInfo(None, None, None, None, None)

  datatype PackageRef = PackageRef(packageId: string, packageName: string, basePrice: int)
  datatype PlanRef = PlanRef(planId: string, planName: string, price: int)
  datatype QuoteAddOn = QuoteAddOn(itemId: string, itemName: string, unitPrice: int, quantity: int, subtotal: int)
  datatype QuoteDiscount = QuoteDiscount(discountId: string, name: string, amount: int)
  datatype QuoteStatus = Pending | Accepted | Expired | Cancelled

  /** A stored quote. Event and service type are optional because the record is
      built from wizard state whose non-null assertions are not checked at run time. */
  datatype Quote = Quote(
    id: string,
    createdAt: string,
    expiresAt: string,
    customer: CustomerInfo,
    eventType: Option<EventType>,
    serviceType: Option<ServiceType>,
    selectedPackage: PackageRef,
    photoPlan: Option<PlanRef>,
    videoPlan: Option<PlanRef>,
    addOns: seq<QuoteAddOn>,
    subtotal: int,
    discounts: seq<QuoteDiscount>,
    totalDiscount: int,
    grandTotal: int,
    status: QuoteStatus)
}
