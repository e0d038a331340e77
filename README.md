# Service calculator: selection, totals and summary

This project models the core of a service pricing calculator. A visitor picks
services from a catalog, and optionally add-ons under a selected service and a
quantity for some services. The page keeps the selection in a JavaScript `Map`
and rolls it up into a price and a time. It shows the time as working days of
8 hours plus leftover hours. It also lists every selected entry in a summary
dock.

The model has five modules:

- `Catalog` (`catalog.dfy`): the item and catalog shapes of `types.ts`, plus a
  transcription of the shipped catalog in `data.ts`. An absent `time_hours` or
  `time_days` is modelled as 0, which is how the roll-up treats it. Add-ons use
  the same `Item` datatype with no add-ons of their own and no quantity flag.
- `NumberText` (`number_text.dfy`): how a whole number is written when it is
  interpolated into a template string (its decimal digits), with the
  read-back function used by the round-trip lemmas.
- `App` (`app.dfy`): the selection and its two handlers.
  - The `Map` is a `Selection`: its keys in insertion order plus the entry
    under each key. `Set` is `Map.set`: a new key goes to the end and an
    existing key keeps its place. `DeleteAll` is `Map.delete`.
  - The handlers are specified by `Toggled` and `QuantityUpdated`.
  - The class `SelectedItems` holds the map's fields. Its `ToggleItem`,
    `UpdateQuantity` and `ComputeTotals` methods mutate the map or loop over
    it as the page does, and each is proved equal to its specification
    function.
  - Lemmas state what the handlers promise, including the parent/child
    invariant over every sequence of events.
- `Summary` (`summary.dfy`): the roll-over of hours into days (a method on
  local copies, proved against `Effective`), the time pieces the header shows,
  and the lines and placeholder of the expanded dock.
- `ServiceItem` (`service_item.dfy`): the price label, the values a service
  card derives from the selection, and which clicks reach which handler.

Three behaviours of the handlers worth knowing:

- **Updating a quantity does not clamp.** A change that would take a quantity
  below 1 is refused and leaves the quantity as it was. It is not clamped to 1
  (`App.tsx:55`). See `App.QuantityUpdateRefusesRatherThanClamps`.
- **Toggling twice does not always restore the selection.** It does for an
  unselected service with none of its add-ons selected (which the parent
  invariant guarantees), and for an unselected add-on whose parent was already
  selected. An unselected add-on toggled twice while its parent was not
  selected leaves the parent selected (`App.tsx:38-41`). See
  `App.ToggleAddOnTwiceKeepsParent`. Toggling a selected service twice is not
  a round trip either: the first toggle deletes its add-ons, and the second
  puts it back with quantity 1 at the end of the order.
- **The reducer does not check `allow_quantity`.** It accepts a quantity change
  for any key. Only the card hides the counter.

## Model

| member | source | states |
|---|---|---|
| Catalog.DataHasOneTimeUnitEach | data.ts:5-107 | every shipped service and add-on is estimated in exactly one of hours or days |
| NumberText.Digits | components/Package/Summary.tsx:177 | the text of a whole number is a non-empty string of decimal digits, with a leading 0 only for 0 itself |
| NumberText.ValueOfDigits | components/Package/Summary.tsx:177 | the decimal text of a number reads back as that number |
| NumberText.DigitsInjective | components/Package/Summary.tsx:177 | different numbers are written differently |
| App.ChildKey | App.tsx:22 | the key of an add-on is its parent's name, a dash and the add-on's name, and is longer than the parent's name |
| App.CascadeKeys | App.tsx:27-33 | defines the keys a service's removal cascades to: `name-addOn` for each of its add-ons |
| App.ToggleKey | App.tsx:22 | the toggle key is `parent-item` for an add-on and the bare name for a service, and an add-on's key never equals its parent's name |
| App.DeleteAll | App.tsx:25 | deleting keys keeps a well-formed map whose entries are the old ones minus the deleted keys |
| App.Set | App.tsx:35 | setting a key keeps a well-formed map whose entries are the old ones updated at that key; an existing key keeps its place in the order and a new key goes to the end |
| App.Cascade | App.tsx:27-33 | each step of the add-on loop leaves a well-formed map |
| App.CascadeDeletes | App.tsx:24-34 | deleting the key and then each present add-on key in turn is the same as deleting all of them at once |
| App.Toggled | App.tsx:19-46 | a toggle always leaves a well-formed map |
| App.ToggleFlipsKey | App.tsx:24-36 | a toggle flips whether its own key is selected |
| App.ToggleInserts | App.tsx:35-36 | toggling an absent key inserts it with quantity 1, keeps every old entry as it was, and adds nothing else except the parent |
| App.ToggleSelectsParent | App.tsx:37-42 | toggling an absent add-on selects its parent: with quantity 1 when the parent was absent, and with its entry unchanged when present |
| App.ToggleRemoves | App.tsx:24-34 | toggling a present key removes it and every add-on key of the item, keeps every other entry unchanged, and removes nothing else |
| App.ToggleServiceTwice | App.tsx:19-46 | toggling an unselected service twice, with none of its add-ons selected, restores the selection, order included |
| App.ToggleAddOnTwice | App.tsx:19-46 | toggling an unselected add-on twice while its parent is selected restores the selection |
| App.ToggleAddOnTwiceKeepsParent | App.tsx:37-42 | toggling an add-on twice while its parent was unselected leaves the parent selected with quantity 1, so the selection differs from the start |
| App.RemovingServiceKeepsParents | App.tsx:24-34 | removing a catalog service with its add-ons keeps every remaining add-on's parent selected |
| App.RemovingAddOnKeepsParents | App.tsx:24-26 | removing an add-on keeps every remaining add-on's parent selected |
| App.InsertingServiceKeepsParents | App.tsx:35 | inserting a service keeps every add-on's parent selected |
| App.InsertingAddOnKeepsParents | App.tsx:35-42 | inserting an add-on, together with its parent when absent, keeps every add-on's parent selected |
| App.TogglePreservesParents | App.tsx:19-46 | for a well-formed catalog, every catalog toggle keeps each selected add-on's parent selected |
| App.TogglePreservesQuantities | App.tsx:19-46 | a toggle keeps every quantity at least 1 |
| App.ToggleCatalogServiceTwice | App.tsx:19-46 | from a selection that keeps the parent invariant, toggling an unselected catalog service twice restores the selection |
| App.QuantityUpdated | App.tsx:48-61 | a quantity update leaves a well-formed map |
| App.QuantityUpdateEffect | App.tsx:48-61 | an unknown key, or a result below 1, changes nothing; otherwise only that entry's quantity changes, to quantity plus delta, with order and keys kept |
| App.QuantityUpdatePreservesQuantities | App.tsx:48-61 | quantity updates keep every quantity at least 1 |
| App.QuantityUpdateRefusesRatherThanClamps | App.tsx:54-57 | a change that would take a quantity below 1 leaves the whole selection unchanged, so a quantity other than 1 does not become 1 |
| App.Decremented | App.tsx:48-61 | any number of decrements leaves a well-formed map |
| App.DecrementsStopAtOne | App.tsx:54-57 | after n decrements a quantity q is q minus n, or 1 once that would go below 1 |
| App.Step | App.tsx:19-61 | handling one event leaves a well-formed map |
| App.Run | App.tsx:19-61 | handling any sequence of events leaves a well-formed map |
| App.ReachableSelections | App.tsx:19-61 | from the empty selection, any sequence of catalog events over a well-formed catalog keeps every selected add-on's parent selected and every quantity at least 1 |
| App.OrderCountsEntries | App.tsx:16 | a map's insertion order has exactly one key per entry |
| App.Cost | App.tsx:69-71 | defines what one entry adds: price, hours and days, each times the quantity |
| App.SumOver | App.tsx:64-74 | defines the totals over keys as the sum of their entries' costs, visited in order |
| App.TotalsOf | App.tsx:64-74 | defines a selection's totals as the sum over its keys in insertion order |
| App.EmptyTotals | App.tsx:64-74 | the empty selection totals zero price, hours and days |
| App.SumOverWithout | App.tsx:64-74 | any entry's cost can be taken out of the sum, wherever its key stands in the order |
| App.SumOverAnyOrder | App.tsx:64-74 | summing the same entries in any order gives the same totals |
| App.TotalsIgnoreOrder | App.tsx:64-74 | two selections with the same entries have the same totals, whatever their insertion order |
| App.TotalsNonNegative | App.tsx:64-74 | with positive quantities, no total is negative |
| App.TotalsAfterSelectingService | App.tsx:64-74 | selecting a service adds exactly its price, hours and days once |
| App.TotalsAfterQuantityUpdate | App.tsx:48-74 | an accepted quantity change moves the totals by delta times the item's price, hours and days |
| App.SelectedItems.constructor | App.tsx:16 | the page starts with an empty selection |
| App.SelectedItems.ToggleItem | App.tsx:19-46 | the in-place toggle keeps the map well formed and produces exactly `Toggled` of the old selection |
| App.SelectedItems.DeleteWithAddOns | App.tsx:24-34 | deleting the key and walking the add-ons deletes exactly the key and the item's add-on keys |
| App.SelectedItems.UpdateQuantity | App.tsx:48-61 | the in-place update produces exactly `QuantityUpdated` of the old selection |
| App.SelectedItems.ComputeTotals | App.tsx:64-74 | the accumulating loop over the map returns the sum of price, hours and days times quantity over the entries |
| Summary.Effective | components/Package/Summary.tsx:23-32 | the effective hours are below 8, the duration in hours is kept, and for non-negative hours the hours stay non-negative and the days never decrease |
| Summary.Normalize | components/Package/Summary.tsx:23-32 | the step-by-step update of the local days and hours computes `Effective` |
| Summary.EffectivePassesThrough | components/Package/Summary.tsx:27 | fewer than 8 hours pass through with the days unchanged |
| Summary.EffectiveUnique | components/Package/Summary.tsx:27-30 | for non-negative hours, the result is the only split of the duration into days and 0 to 7 hours |
| Summary.EffectiveIdempotent | components/Package/Summary.tsx:23-32 | normalising a normalised time changes nothing |
| Summary.EffectiveTenHours | components/Package/Summary.tsx:27-30 | ten hours and no days become one day and two hours |
| Summary.TimeParts | components/Package/Summary.tsx:145-159 | days are shown iff positive, hours iff positive, and "0h" iff the price is positive and both are zero; at most two pieces show |
| Summary.HeaderShowsTotalTime | components/Package/Summary.tsx:145-159 | for non-negative totals the shown pieces add up to exactly the total time in hours |
| Summary.HeaderTimeBlank | components/Package/Summary.tsx:145-159 | for non-negative totals no time shows iff the price is not positive and there is no time |
| Summary.QuantityTag | components/Package/Summary.tsx:177 | the tag is non-empty iff the quantity exceeds 1, and is then of the form "(x…)" |
| Summary.QuantityTagReadsBack | components/Package/Summary.tsx:177 | the digits inside the tag read back as the quantity |
| Summary.LineOf | components/Package/Summary.tsx:177-178 | a line carries the item's name and shows "Free" iff the item's price is zero |
| Summary.LineAmountIsCost | components/Package/Summary.tsx:178 | a line's amount is exactly the price its entry adds to the total |
| Summary.LinesOf | components/Package/Summary.tsx:175-180 | there is one line per key, in order, each being that entry's line |
| Summary.LinesAddUp | components/Package/Summary.tsx:175-180 | the line amounts add up to the price total |
| Summary.SummaryBody | components/Package/Summary.tsx:173-183 | a list has one line per key of the order |
| Summary.SummaryBodyMatchesSelection | components/Package/Summary.tsx:173-183 | the placeholder shows iff nothing is selected; otherwise the list has one line per entry and its amounts add up to the price total |
| ServiceItem.FormatPrice | components/Package/ServiceItem.tsx:27-32 | the label is "Free" iff the price is zero; any other label starts with "BDT "; from 1000 it ends in "K"; below 1000 the rest is digits |
| ServiceItem.FormatPriceReadsBack | components/Package/ServiceItem.tsx:29 | below 1000 the digits after "BDT " read back as the price |
| ServiceItem.FormatPriceDistinguishes | components/Package/ServiceItem.tsx:28-29 | below 1000, different prices get different labels |
| ServiceItem.IsSelected | components/Package/ServiceItem.tsx:21-22 | defines a card's service as selected when its name is a key of the selection |
| ServiceItem.ShowQuantityCounter | components/Package/ServiceItem.tsx:171 | defines the counter as shown for a selected service that allows a quantity |
| ServiceItem.DecrementDisabled | components/Package/ServiceItem.tsx:179 | defines the decrement button as disabled at a quantity of 1 or less |
| ServiceItem.ShowAddOns | components/Package/ServiceItem.tsx:198 | defines the add-on list as shown for a selected service that has add-ons |
| ServiceItem.AddOnChecked | components/Package/ServiceItem.tsx:210 | defines an add-on as ticked when its card key is in the selection |
| ServiceItem.DisplayedQuantity | components/Package/ServiceItem.tsx:21-23 | the counter shows the stored quantity for a selected service and 0 otherwise |
| ServiceItem.AddOnKey | components/Package/ServiceItem.tsx:209 | the card's add-on key is the key the toggle handler uses for that add-on |
| ServiceItem.CardClick | components/Package/ServiceItem.tsx:167 | a click on the card flips whether its service is selected |
| ServiceItem.CardClickShowsAndHides | components/Package/ServiceItem.tsx:171-221 | selecting a service shows the counter iff it allows a quantity, at 1, and the add-on list iff it has add-ons; deselecting hides both and unticks every add-on |
| ServiceItem.QuantityClick | components/Package/ServiceItem.tsx:34-37 | a quantity click keeps the map well formed and the insertion order unchanged |
| ServiceItem.AddOnClick | components/Package/ServiceItem.tsx:215 | an add-on click keeps the map well formed |
| ServiceItem.AddOnClickEffect | components/Package/ServiceItem.tsx:208-215 | an add-on click changes the selection iff the service is selected, then flips that add-on's tick and leaves the service's entry unchanged |
| ServiceItem.AddOnClickTwice | components/Package/ServiceItem.tsx:215 | two clicks on an unticked add-on of a selected service restore the selection |
| ServiceItem.DecrementGuardAgreesWithHandler | components/Package/ServiceItem.tsx:179 | the decrement button is enabled iff the handler would accept the decrement, which then lowers the shown quantity by 1 |
| ServiceItem.CounterShowsPositive | components/Package/ServiceItem.tsx:21-23 | with positive quantities, a selected service's counter shows at least 1 |

## Left out

- The locale-formatted thousands of `formatPrice` are not modelled (`components/Package/ServiceItem.tsx:30-31`). `ServiceItem.FormatPrice` takes them as a parameter, because they come from float division and `toLocaleString`, which depend on the engine and locale.
- `Summary.LineOf` carries the line amount as a number, without the `toLocaleString()` digit grouping of `components/Package/Summary.tsx:178`, for the same reason.
- Styling, theming, animation and icons are not modelled: the `styles` objects, `theme.ts`, `ThemeProvider.tsx`, framer-motion props, `AnimatedCounter`, `components/Core/Icon.tsx` and `components/Core/ThemeSwitcher.tsx`. They compute no part of the selection or the totals.
- The header's animated price counter and the dock's expand/collapse state are not modelled. They are presentation only.
- The `notes` and `icon` fields of items are not modelled. Nothing in the core reads them except the icon lookup.
- React's `useState`, `useMemo` and `useCallback` are not modelled. The handlers become state transitions on `SelectedItems`, and the memoised values become functions of the selection.
- `components/Section/Header.tsx` and `components/Section/ServiceCategory.tsx` are not modelled. They only lay out cards.
- The four catalog assumptions the keying relies on are not proved here for the shipped data in `data.ts`. `App.WellFormed` states them, and the invariant lemmas require them:
  - unique names (`App.UniqueNames`);
  - leaf add-ons (`App.AddOnsAreLeaves`);
  - no service name equal to an add-on key (`App.NamesAreNotAddOnKeys`);
  - an add-on key determines its parent (`App.AddOnKeysDetermineParent`). A parent "a" with add-on "b-c" and a parent "a-b" with add-on "c" would share the key "a-b-c".
- JavaScript numbers are IEEE doubles, but the model uses unbounded integers. Integer arithmetic on doubles is exact only up to 2^53, and `${n}` switches to exponent form from 1e21, whereas `NumberText.Digits` writes every n in plain digits. No selection of the shipped catalog comes near these bounds.
- The React keys of the dock's list items (`${item.name}-${index}`) are not modelled. They do not affect what is shown.
