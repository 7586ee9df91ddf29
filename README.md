# Photography studio quote wizard — a Dafny model

This project models the core of a web tool that a photography and video studio
uses to quote prices. A customer walks through a seven-step wizard:

1. the occasion (event, concert, family, wedding);
2. the service (photo, video or both);
3. a package;
4. a post-production plan for each medium the service includes;
5. optional add-on items with quantities;
6. contact details and the event date;
7. a summary.

A price calculator turns the selection into a breakdown. It charges the
package, the plans and the add-ons. It then applies at most one percentage
discount and at most one fixed discount, each the largest qualifying rule of
its kind. Submitting stores a quote record under a dated id. An admin page
edits the package catalogue, including a plain-text "one item per line" editor
for the items a package includes.

The modules follow the source files:

| module | file | models |
|---|---|---|
| `Types` | `types.dfy` | the records of the catalogue, the discount rules and the quote |
| `JsText` | `text.dfy` | the JavaScript string operations the core relies on: `trim`, `split`, `join`, `String(n)`, `padStart`, `parseInt` |
| `AddOnMap` | `addon_map.dfy` | the insertion-ordered `Map` from add-on id to item and quantity |
| `Pricing` | `pricing.dfy` | `calculatePrice` (an imperative method proved against a specification function) and `checkDiscountConditions` |
| `PricingExamples` | `pricing_examples.dfy` | the catalogue's default discount rules and worked prices for them |
| `Store` | `store.dfy` | the wizard's state store, as a class whose methods update its fields |
| `QuotePage` | `quote_page.dfy` | `canProceed` and the quote record built on submit |
| `Storage` | `storage.dfy` | the stored quote list (upsert, lookup, delete) and quote id generation |
| `PackagesAdmin` | `packages_admin.dfy` | saving, deleting and toggling packages, and the included-items text editor |

The clock is a parameter throughout. The calculator receives the number of
days from today to the event date. The quote id generator receives today's
date as `YYYYMMDD`. Submitting receives the creation and expiry timestamps.

Money is modelled as unbounded integers. The source uses JavaScript numbers;
catalogue prices are whole New Taiwan dollars, and the only rounding is the
`Math.round` of a percentage discount, which is written out (`RoundPercent`).
JavaScript truthiness is kept where it decides a branch:

- a zero threshold imposes nothing;
- an empty list imposes nothing;
- an empty package id skips the package condition;
- an empty event date counts as no date;
- an empty contact field is not filled in.

## Model

| member | source | states |
|---|---|---|
| `Pricing.CheckDiscountConditions` | src/lib/pricing.ts:143-173 | a rule applies exactly when every condition it sets holds: subtotal at least the minimum, lead time at least the early-bird days, service type listed, package listed; zero thresholds, empty lists and a missing or empty package id impose nothing |
| `Pricing.RoundPercent` | src/lib/pricing.ts:93-95 | the percentage amount is within half a dollar of `subtotal * value / 100`, halves rounded up as `Math.round` does |
| `Pricing.PercentageWithinSubtotal` | src/lib/pricing.ts:93-95 | a percentage from 0 to 100 of a non-negative subtotal is between 0 and the subtotal |
| `Pricing.Candidates` | src/lib/pricing.ts:80-104 | every rule kept by the scan is active, of the kind, passes its conditions, and carries the rounded percentage or the fixed value as its amount |
| `Pricing.Best` | src/lib/pricing.ts:97-100 | the running best exists exactly when some candidate does, is one of them, and no candidate has a larger amount |
| `Pricing.PostProductionPrice` | src/lib/pricing.ts:50-56 | photo charges the photo plan, video the video plan, both charge both |
| `Pricing.DaysUntilEvent` | src/lib/pricing.ts:71-74 | the lead time is the clock's day count when an event date is given and not empty, and 0 otherwise |
| `Pricing.SumPostProduction` | src/lib/pricing.ts:50-56 | the two `if` statements add up to the post-production charge of the service type |
| `Pricing.ScanDiscounts` | src/lib/pricing.ts:76-104 | the loop ends holding the best percentage candidate and the list of qualifying fixed candidates in order |
| `Pricing.ApplyDiscounts` | src/lib/pricing.ts:106-127 | the best percentage candidate is listed first and the largest fixed one second, each only when present, and the total is the sum of their amounts |
| `Pricing.SelectDiscounts` | src/lib/pricing.ts:76-127 | the listed discounts and their total are those of the best qualifying percentage rule and the best qualifying fixed rule |
| `Pricing.LargestFixed` | src/lib/pricing.ts:117-120 | the `reduce` returns the same fixed candidate as the running best |
| `Pricing.SumAddOns` | src/lib/pricing.ts:59-62 | the `forEach` loop sums `unitPrice * quantity` over the add-on lines |
| `Pricing.Charges` | src/lib/pricing.ts:46-74 | the package, post-production and add-on charges, and the subtotal, service type, package id and lead time the rules are checked against |
| `Pricing.CalculatePrice` | src/lib/pricing.ts:35-141 | the method returns exactly the specification `Calculation`, whose properties follow |
| `Pricing.CalculationTotals` | src/lib/pricing.ts:46-130 | subtotal = package + post-production + add-ons; the package price is the base price or 0; post-production is the charge of the plans the service type includes; add-ons are the sum of their line totals; the total discount is the sum of the listed discounts; at most two are listed; the grand total is the subtotal less the discount, floored at 0 |
| `Pricing.DiscountSelection` | src/lib/pricing.ts:76-127 | one discount is listed per kind that has a qualifying rule, the percentage one first; each is the earliest qualifying rule of its kind with the largest amount |
| `Pricing.BestIsFirstMaximum` | src/lib/pricing.ts:97-120 | the strict `>` scan picks the earliest maximum, and nothing exactly when no rule of the kind qualifies |
| `Pricing.AddOnsTotalReplace` | src/lib/pricing.ts:59-62 | replacing one add-on line changes the add-on total by the difference of the two line totals |
| `Pricing.AddOnQuantityMonotone` | src/lib/pricing.ts:59-62 | raising a quantity at a non-negative unit price never lowers the add-on total |
| `Pricing.SubtotalMonotone` | src/lib/pricing.ts:59-65 | ... nor the subtotal |
| `Pricing.AddOnsTotalNonNegative` | src/lib/pricing.ts:59-62 | non-negative prices and quantities give a non-negative add-on total |
| `PricingExamples.DefaultPercentageCandidates` | src/lib/data.ts:591-642 | the default rules yield exactly the percentage candidates of the early-bird and combo rules that qualify, in catalogue order, each at its rounded percentage |
| `PricingExamples.DefaultFixedCandidates` | src/lib/data.ts:591-642 | the default rules yield exactly the fixed candidates of the over-50k and over-100k rules that qualify, in catalogue order, at 3000 and 8000 |
| `PricingExamples.ComboAndOver50k` | src/lib/pricing.ts:106-130 | a 77000 photo-and-video package gets the 5% combo (3850) and the 3000 fixed discount, for 70150 |
| `PricingExamples.PackageWithoutDiscounts` | src/lib/pricing.ts:46-65 | with no rules a 15000 package costs 15000 |
| `PricingExamples.Over50kReached` | src/lib/pricing.ts:152-155 | the minimum total is inclusive: a 50000 photo package gets the 3000 fixed discount and costs 47000 |
| `PricingExamples.Over50kMissed` | src/lib/pricing.ts:152-155 | one dollar under the minimum, a 49999 photo package gets no discount |
| `PricingExamples.BothEarlyBirdsQualify` | src/lib/pricing.ts:157-160 | 60 days ahead on 40000 both early-bird rules qualify (4000 and 6000) and the 6000 one is best |
| `PricingExamples.LargerPercentageWins` | src/lib/pricing.ts:97-100 | only the larger of two qualifying percentage discounts is applied |
| `PricingExamples.EarlyBirdTooLate` | src/lib/pricing.ts:157-160 | the lead time is inclusive: 29 days ahead no default rule applies to a 40000 photo package |
| `PricingExamples.EarlyBirdJustInTime` | src/lib/pricing.ts:157-160 | 30 days ahead the 30-day early-bird rule takes 4000 off a 40000 photo package |
| `PricingExamples.NoDiscountAtLeadTimeZero` | src/lib/pricing.ts:72-74 | with no or an empty event date the lead time is 0 whatever the clock says, so no default rule applies to a 40000 photo package 90 days out |
| `PricingExamples.EarlierRuleWinsTie` | src/lib/pricing.ts:98 | of two equal percentage discounts the earlier rule is applied |
| `AddOnMap.IndexOf` | src/lib/store.ts:111-119 | the position of the first line with the id, or -1 when there is none |
| `AddOnMap.Get` | src/app/quote/page.tsx:631 | `Map.get`: an entry is found exactly when some line has the id, and it is the first such line |
| `AddOnMap.Put` | src/lib/store.ts:116 | `Map.set`: the id now maps to the new line; an existing entry keeps its position, a new one goes last; other lines are unchanged; ids stay distinct |
| `AddOnMap.Remove` | src/lib/store.ts:114 | `Map.delete`: the id is gone, one line fewer when it was there, nothing else is added, the other lines keep their order, ids stay distinct |
| `AddOnMap.PutOtherKeys` | src/lib/store.ts:116 | setting one id leaves every other id's lookup unchanged |
| `AddOnMap.RemoveOtherKeys` | src/lib/store.ts:114 | deleting one id leaves every other id's lookup unchanged |
| `AddOnMap.PutKeepsWellFormed` | src/lib/store.ts:113-117 | setting a positive quantity keeps ids distinct and every quantity positive |
| `Store.Stepped` | src/lib/store.ts:68-80 | next moves one step on and previous one step back, never past 7 or below 1; the step stays put exactly at the end it moves towards |
| `Store.StepsStayInRange` | src/lib/store.ts:68-80 | any sequence of next and previous presses keeps the wizard within steps 1 to 7 |
| `Store.ForwardWalk` | src/lib/store.ts:68-73 | pressing next `n` times moves `n` steps on, stopping at step 7 |
| `Store.MergeCustomer` | src/lib/store.ts:122-124 | for each of name, phone, event date, location and notes: a field given in the update replaces the stored one, an absent one keeps it |
| `Store.MergeCustomerIdempotent` | src/lib/store.ts:122-124 | the same update twice is the update once; an empty update changes nothing |
| `Store.MergeCustomerCompose` | src/lib/store.ts:122-124 | two updates in a row equal one merged update with the later fields winning |
| `Store.PricingInput` | src/lib/store.ts:129-137 | the calculator gets the package, both plans and the add-ons as stored, the service type defaulting to photo, and the form's event date |
| `Store.QuoteStore.constructor` | src/lib/store.ts:50-63 | a new store is in the initial state: step 1, nothing chosen, no add-ons, an empty form, no price |
| `Store.QuoteStore.SetStep` | src/lib/store.ts:66 | only the step changes, to the given value |
| `Store.QuoteStore.NextStep` | src/lib/store.ts:68-73 | only the step changes, one on unless at step 7 |
| `Store.QuoteStore.PrevStep` | src/lib/store.ts:75-80 | only the step changes, one back unless at step 1 |
| `Store.QuoteStore.SetEventType` | src/lib/store.ts:83-91 | the occasion is set; service, package, both plans, add-ons and price are cleared; step and form are kept |
| `Store.QuoteStore.SetServiceType` | src/lib/store.ts:94-101 | the service is set; package, both plans, add-ons and price are cleared; occasion, step and form are kept |
| `Store.QuoteStore.SelectPackage` | src/lib/store.ts:104 | only the package changes |
| `Store.QuoteStore.SetPhotoPostProduction` | src/lib/store.ts:107 | only the photo plan changes |
| `Store.QuoteStore.SetVideoPostProduction` | src/lib/store.ts:108 | only the video plan changes |
| `Store.QuoteStore.SetAddOnQuantity` | src/lib/store.ts:111-119 | a quantity of 0 or less removes the item, a positive one sets it; nothing else changes; ids stay distinct and quantities positive |
| `Store.QuoteStore.UpdateCustomer` | src/lib/store.ts:122-124 | only the form changes, by the merge above |
| `Store.QuoteStore.Recalculate` | src/lib/store.ts:127-139 | only the price changes, to the calculation of the current selection |
| `Store.QuoteStore.Reset` | src/lib/store.ts:142 | the store is back in the initial state |
| `QuotePage.CanProceed` | src/app/quote/page.tsx:297-314 | step 1 needs an occasion, 2 a service, 3 a package, 4 every plan the service needs (both while no service is set), 6 name, phone and event date; other steps always pass |
| `QuotePage.AllStepsPassIffReady` | src/app/quote/page.tsx:297-314 | every step from 1 to 6 passes exactly when occasion, service, package, plans and contact details are all present |
| `QuotePage.EventTypeClearsLaterSteps` | src/app/quote/page.tsx:297-314 | after a new occasion, steps 2 to 4 block again and the wizard is not ready to quote |
| `QuotePage.ServiceTypeClearsLaterSteps` | src/app/quote/page.tsx:297-314 | after a new service, steps 3 and 4 block again and the wizard is not ready to quote |
| `QuotePage.QuoteLines` | src/app/quote/page.tsx:101-107 | one quote line per add-on in map order, with the item's id, name and unit price, the quantity and their product |
| `QuotePage.QuoteDiscounts` | src/app/quote/page.tsx:109-113 | one quote discount per applied discount, same id, name and amount, same order |
| `QuotePage.BuildQuote` | src/app/quote/page.tsx:68-117 | no quote without a package or a price; otherwise the quote is pending, under the given id, and copies the form, choices, plans, lines and price fields |
| `QuotePage.QuoteLinesTotal` | src/app/quote/page.tsx:101-107 | the quote lines' subtotals add up to the calculator's add-on total |
| `QuotePage.QuoteDiscountsTotal` | src/app/quote/page.tsx:109-113 | the quote discounts add up to the sum of the applied discounts |
| `QuotePage.QuoteAddsUp` | src/app/quote/page.tsx:108-115 | a quote built from a current price is self-consistent: subtotal = base price + plans + lines, total discount = sum of at most two discounts, grand total = subtotal less discount, floored at 0 |
| `QuotePage.Submit` | src/app/quote/page.tsx:68-117 | without a package or a price nothing is stored; otherwise the new quote is put first and every stored quote is kept |
| `Storage.IndexOfId` | src/lib/storage.ts:64 | `findIndex`: the first position holding the id, or -1 when there is none |
| `Storage.GetQuoteById` | src/lib/storage.ts:75-78 | `find`: a quote is found exactly when one has the id, and it is the first quote with the id |
| `Storage.Upserted` | src/lib/storage.ts:60-73 | the list `saveQuote` stores: the first quote with the id replaced in place, or, when no quote has the id, the new quote put in front of the others |
| `Storage.WithoutId` | src/lib/storage.ts:83 | `filter`: keeps exactly the quotes with another id, never more than there were |
| `Storage.WithoutIdAppend` | src/lib/storage.ts:83 | the filter distributes over concatenation and keeps a single quote exactly when its id differs, so survivors keep their order and their number of copies |
| `Storage.SaveThenGet` | src/lib/storage.ts:60-73 | after saving, looking up the id gives the saved quote |
| `Storage.SaveKeepsOthers` | src/lib/storage.ts:60-73 | saving leaves every other id's lookup unchanged |
| `Storage.SaveLength` | src/lib/storage.ts:66-70 | saving replaces in place when the id exists and adds one quote otherwise |
| `Storage.SaveKeepsIdsDistinct` | src/lib/storage.ts:60-73 | saving keeps ids distinct, and saving the same quote twice is saving it once |
| `Storage.DeleteThenGet` | src/lib/storage.ts:80-85 | after deleting, the id is not found |
| `Storage.DeleteKeepsOthers` | src/lib/storage.ts:80-85 | deleting leaves every other id's lookup unchanged |
| `Storage.DeleteKeepsIdsDistinct` | src/lib/storage.ts:80-85 | deleting keeps ids distinct |
| `Storage.QuoteStorage.constructor` | src/lib/storage.ts:46-58 | the store starts from the quote list read back |
| `Storage.QuoteStorage.SaveQuote` | src/lib/storage.ts:60-73 | the list becomes the upsert of the quote: replaced in place or put first; the quote is then found under its id |
| `Storage.QuoteStorage.DeleteQuote` | src/lib/storage.ts:80-85 | the list loses exactly the quotes with the id, and the id is no longer found |
| `Storage.CountStartingWithValue` | src/lib/storage.ts:95-96 | the count of today's quotes is the number of stored quotes whose id starts with the day's prefix |
| `Storage.CountStartingWithAppend` | src/lib/storage.ts:95-96 | counting over a concatenation adds the counts of the parts |
| `Storage.QuoteIdFor` | src/lib/storage.ts:98 | an id is `Q-`, the date and `-`, followed by at least three digits |
| `Storage.QuoteIdSequence` | src/lib/storage.ts:98 | the number in `Q-<date>-<nnn>` reads back as the number the id was made from, whatever its width |
| `Storage.GenerateQuoteId` | src/lib/storage.ts:89-99 | the id made is today's id numbered one past the count of today's quotes |
| `Storage.GeneratedIdCanCollide` | src/lib/storage.ts:89-99 | with one stored quote numbered 002 today, the id made is 002 again, and saving under it overwrites that quote |
| `Storage.MaxSequence` | src/lib/storage.ts:93-96 | no stored quote of today has a number above it |
| `Storage.FreshQuoteId` | src/lib/storage.ts:89-99 | the id is numbered one past the largest of today's numbers and no stored quote has it |
| `Storage.SaveFreshKeepsAll` | src/lib/storage.ts:60-73 | saving under a fresh id puts the quote first, keeps every stored quote, and keeps ids distinct |
| `JsText.TrimStart` | src/app/admin/packages/page.tsx:249 | removes exactly the leading whitespace |
| `JsText.TrimEnd` | src/app/admin/packages/page.tsx:249 | removes exactly the trailing whitespace |
| `JsText.Trim` | src/app/admin/packages/page.tsx:251 | the result has no whitespace at either end and is a slice of the input with only whitespace cut |
| `JsText.TrimSlice` | src/app/admin/packages/page.tsx:251 | trimming cuts only whitespace, from the front and from the back |
| `JsText.TrimOfTrimmed` | src/app/admin/packages/page.tsx:251 | trimming trimmed text changes nothing |
| `JsText.Split` | src/app/admin/packages/page.tsx:248 | at least one part, no part holds the separator, and joining the parts gives the input back |
| `JsText.SplitJoin` | src/app/admin/packages/page.tsx:238-251 | splitting joined parts that hold no separator gives the parts back |
| `JsText.NatToString` | src/app/admin/packages/page.tsx:239 | a non-empty run of digits without a leading zero |
| `JsText.NatToStringValue` | src/lib/storage.ts:98 | the digits written read back as the number |
| `JsText.PadStart` | src/lib/storage.ts:98 | pads on the left with the fill character up to the width, never truncating |
| `JsText.ZeroPaddedValue` | src/lib/storage.ts:98 | zero padding keeps the digits' value |
| `JsText.ParseInt` | src/app/admin/packages/page.tsx:254 | blank text reads as `NaN`, and a negative number only comes after a minus sign |
| `JsText.ParseIntOfIntToString` | src/app/admin/packages/page.tsx:254 | `parseInt` reads back any integer `String` wrote |
| `PackagesAdmin.ReplaceById` | src/app/admin/packages/page.tsx:50 | each package with the id is replaced by the edited one and every other is kept in place |
| `PackagesAdmin.SavePackage` | src/app/admin/packages/page.tsx:43-51 | a package with a new id is added at the end; otherwise every package with its id is replaced by it in place and the rest are kept |
| `PackagesAdmin.SavePackageContents` | src/app/admin/packages/page.tsx:43-58 | after saving, the package is in the list, is the only one with its id, other packages are untouched, and the list grows by one only for a new id |
| `PackagesAdmin.SavePackageIdempotent` | src/app/admin/packages/page.tsx:43-58 | saving the same package twice is saving it once |
| `PackagesAdmin.DeletePackage` | src/app/admin/packages/page.tsx:60-67 | keeps exactly the packages with another id |
| `PackagesAdmin.DeletePackageAppend` | src/app/admin/packages/page.tsx:63 | the filter distributes over concatenation and keeps a single package exactly when its id differs, so survivors keep their order and their number of copies |
| `PackagesAdmin.DeletePackageIdempotent` | src/app/admin/packages/page.tsx:63 | the id is gone afterwards and deleting again changes nothing |
| `PackagesAdmin.ToggleActive` | src/app/admin/packages/page.tsx:69-76 | packages with the id flip their active flag and nothing else; others are unchanged |
| `PackagesAdmin.ToggleTwice` | src/app/admin/packages/page.tsx:69-76 | toggling twice restores the list |
| `PackagesAdmin.ItemLines` | src/app/admin/packages/page.tsx:238-240 | one corrected line per included item, in order (see Findings) |
| `PackagesAdmin.ItemFieldsAsWritten` | src/app/admin/packages/page.tsx:239 | the form writes name, quantity and unit (the text `undefined` when there is none), then the note only when it is present and not empty |
| `PackagesAdmin.AsWrittenWithUnits` | src/app/admin/packages/page.tsx:237-241 | when every item has a unit, the form's own text is the corrected text |
| `PackagesAdmin.AsWrittenRoundTrip` | src/app/admin/packages/page.tsx:237-258 | the form's own text of storable items that all have a unit parses back to the same items |
| `PackagesAdmin.SerialisedLines` | src/app/admin/packages/page.tsx:240-249 | the corrected text of a non-empty list of storable items splits into exactly one non-blank line per item |
| `PackagesAdmin.TrimAll` | src/app/admin/packages/page.tsx:251 | every field is trimmed, none added or lost |
| `PackagesAdmin.Field` | src/app/admin/packages/page.tsx:251 | a destructured field is present exactly when the line has that many fields |
| `PackagesAdmin.NoteOf` | src/app/admin/packages/page.tsx:256 | an empty note becomes absent |
| `PackagesAdmin.QuantityOf` | src/app/admin/packages/page.tsx:254 | a missing or unreadable quantity is 0, otherwise the number `parseInt` reads |
| `PackagesAdmin.ParseJoinedFields` | src/app/admin/packages/page.tsx:251-257 | a line of plain comma-separated fields parses to the first field as name, the second as quantity, the third as unit and the fourth as note; later fields are ignored |
| `PackagesAdmin.ParsedLineStorable` | src/app/admin/packages/page.tsx:250-257 | any line without a line break parses to a storable item |
| `PackagesAdmin.NonBlankMembers` | src/app/admin/packages/page.tsx:249 | keeps exactly the lines that are not blank after trimming |
| `PackagesAdmin.NonBlankAppend` | src/app/admin/packages/page.tsx:249 | the filter distributes over concatenation, so the kept lines stay in order with their number of copies |
| `PackagesAdmin.NonBlankOne` | src/app/admin/packages/page.tsx:249 | a single line is kept exactly when it is not blank |
| `PackagesAdmin.EmptyTextNoItems` | src/app/admin/packages/page.tsx:247-258 | an empty text holds no items |
| `PackagesAdmin.ParseLines` | src/app/admin/packages/page.tsx:250-258 | one item per kept line, in order |
| `PackagesAdmin.QuantityRoundTrip` | src/app/admin/packages/page.tsx:254 | `parseInt(...) \|\| 0` reads back any quantity written |
| `PackagesAdmin.ParseItemLine` | src/app/admin/packages/page.tsx:237-258 | the corrected line of a storable item parses back to the item |
| `PackagesAdmin.SerialiseRoundTrip` | src/app/admin/packages/page.tsx:237-258 | the corrected editor text of storable items parses back to the same items |
| `PackagesAdmin.ParsedItemsStorable` | src/app/admin/packages/page.tsx:247-258 | every item the parser produces is storable |
| `PackagesAdmin.ResaveUnchanged` | src/app/admin/packages/page.tsx:237-258 | with the corrected text, opening and saving a package's items without edits leaves them unchanged |
| `PackagesAdmin.AsWrittenAgreesWithUnit` | src/app/admin/packages/page.tsx:239 | for an item with a unit the line as written and the corrected line agree |
| `PackagesAdmin.UnitlessItemGainsUndefined` | src/app/admin/packages/page.tsx:239 | an item without a unit is written with the text `undefined`, which parses back as its unit |
| `PackagesAdmin.ResaveUnitlessItem` | src/app/admin/packages/page.tsx:237-258 | a two-field line parses to an item without a unit; its line as written does not parse back to it, the corrected line does |

## Left out

- Browser storage and JSON: the stored quote list and the catalogue are values and class fields. Reading, writing, parse failures and the server-side guard (`typeof window`) are not modelled.
- The clock: `Date.now()`, `new Date(...)` and `toISOString()` are not modelled. The calculator takes the day count to the event date as a parameter. The id generator takes today's date string. Submitting takes the two timestamps.
- Pricing.DaysUntilEvent: an event date that JavaScript cannot parse gives `NaN` days, which passes every early-bird test in the source. The model takes a whole day count from the clock, so it has no `NaN`.
- Floating point: prices, quantities and discount values are integers. Fractional values are not modelled.
- `formatPrice` (currency formatting) is display-only and is not modelled.
- Discount validity windows (`validFrom`, `validUntil`, src/types/index.ts:79-80) are not checked by the calculator and are not modelled; the model's `Discount` has no such fields.
- Store.QuoteStore.UpdateCustomer: a key present with the value `undefined` overwrites the stored field in JavaScript. The model has only present or absent fields, so it keeps the stored value.
- Store.QuoteStore.SetStep: the source stores any number unchecked, and so does the model. Only `nextStep` and `prevStep` keep the step within 1 to 7.
- The re-pricing trigger of the quote page (an effect that calls `recalculate` when the selection changes) is not modelled. `QuotePage.QuoteAddsUp` therefore assumes the stored price is current.
- QuotePage.Submit: it uses the corrected id generator `Storage.FreshQuoteId`, not the count-based one of the source (see Findings). Navigation after submit is not modelled.
- The admin page's confirmation dialog before a delete is not modelled; `PackagesAdmin.DeletePackage` is the confirmed case. Saving the edited catalogue is the new list value.
- Admin login, passwords, sessions, the settings page and all rendering are outside the core.
- ItemLines: it is the corrected line format, which leaves out an absent unit (and the note with it); the form's own line is `ItemLineAsWritten`, which writes `undefined` (see Findings).
- ParseItemLine: the round trip is for the corrected line. For the form's own line it holds when the item has a unit (`AsWrittenAgreesWithUnit`) and fails without one (`UnitlessItemGainsUndefined`).
- SerialiseRoundTrip: the round trip is for the corrected text. For the form's own text it holds when every item has a unit (`AsWrittenRoundTrip`).
- JsText.ParseInt: it models `parseInt` for strings of decimal digits and `0x` hex digits after optional whitespace and sign. Radix arguments and numbers beyond exact integers are not modelled.

## Findings

| source | as written | input that shows it | evidently intended | confidence | as-written member | corrected member |
|---|---|---|---|---|---|---|
| src/lib/storage.ts:89-99 | the new id is numbered one past the count of today's stored quotes | quotes 001 and 002 saved today, 001 deleted: the count is 1, so the next id is 002, and `saveQuote` overwrites the stored quote 002 | a number not used by any stored quote of today, for example one past the largest | not executed | `Storage.GeneratedIdCanCollide` | `Storage.FreshQuoteId` |
| src/app/admin/packages/page.tsx:237-241 | the editor writes `name,quantity,unit` even when the item has no unit | an item with no unit is written as `Photo,1,undefined` and saved back with the unit text `undefined` | leave the unit field (and the note) out when the item has no unit, so that saving unchanged text keeps the item | not executed | `PackagesAdmin.UnitlessItemGainsUndefined` | `PackagesAdmin.ResaveUnchanged` |
