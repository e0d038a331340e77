/** One service card (components/Package/ServiceItem.tsx): the price label,
    what the card derives from the selection, and which clicks reach the
    selection handlers. */
module ServiceItem {
  import opened Catalog
  import opened App
  import opened NumberText

  // ---------------------------------------------------------------------
  // The price label

  /** The label of a price: "Free" for zero, the whole amount below 1000,
      and the amount in thousands with a "K" from 1000 on. The digits of the
      thousands are the locale's rendering of `price / 1000`, which the caller
      supplies as `thousands`. */
  function FormatPrice(price: nat, thousands: string): (r: string)
    ensures r == "Free" <==> price == 0
    ensures price > 0 ==> |r| > 4 && r[..4] == "BDT "
    ensures price >= 1000 ==> r[|r| - 1] == 'K'
    ensures 0 < price < 1000 ==> AllDigits(r[4..])
  {
    if price == 0 then "Free"
    else if price < 1000 then "BDT " + Digits(price)
    else "BDT " + thousands + "K"
  }

  /** Below 1000 the label reads back as the price. */
  lemma FormatPriceReadsBack(price: nat, thousands: string)
    requires 0 < price < 1000
    ensures var r := FormatPrice(price, thousands);
      AllDigits(r[4..]) && ValueOf(r[4..]) == price
  {
    var r := FormatPrice(price, thousands);
    assert r[4..] == Digits(price);
    ValueOfDigits(price);
  }

  /** Below 1000, different prices get different labels. */
  lemma FormatPriceDistinguishes(a: nat, b: nat, thousands: string)
    requires a < 1000 && b < 1000
    requires FormatPrice(a, thousands) == FormatPrice(b, thousands)
    ensures a == b
  {
    if a > 0 && b > 0 {
      FormatPriceReadsBack(a, thousands);
      FormatPriceReadsBack(b, thousands);
    }
  }

  // ---------------------------------------------------------------------
  // What the card derives from the selection

  /** Whether the card's service is selected. */
  predicate IsSelected(s: Selection, item: Item)
  {
    item.name in s.entries
  }

  /** The quantity the counter shows: the stored quantity when the service
      is selected, 0 otherwise (a stored 0 also reads as 0). */
  function DisplayedQuantity(s: Selection, item: Item): (q: int)
    ensures !IsSelected(s, item) ==> q == 0
    ensures IsSelected(s, item) ==> q == s.entries[item.name].quantity
  {
    if item.name in s.entries && s.entries[item.name].quantity != 0
    then s.entries[item.name].quantity
    else 0
  }

  /** The quantity counter shows for a selected service that allows a
      quantity. */
  predicate ShowQuantityCounter(s: Selection, item: Item)
  {
    IsSelected(s, item) && item.allowQuantity
  }

  /** The decrement button is disabled at a quantity of 1 or less. */
  predicate DecrementDisabled(quantity: int)
  {
    quantity <= 1
  }

  /** The add-on list shows for a selected service that has add-ons. */
  predicate ShowAddOns(s: Selection, item: Item)
  {
    |item.addOns| > 0 && IsSelected(s, item)
  }

  /** The key under which the card looks up one of its add-ons. */
  function AddOnKey(item: Item, addOn: Item): (k: string)
    ensures k == ToggleKey(addOn, Some(item))
  {
    item.name + "-" + addOn.name
  }

  /** The add-on's checkbox is ticked when its key is selected. */
  predicate AddOnChecked(s: Selection, item: Item, addOn: Item)
  {
    AddOnKey(item, addOn) in s.entries
  }

  // ---------------------------------------------------------------------
  // Clicks

  /** The selection after a click on the card's main area. */
  function CardClick(s: Selection, item: Item): (r: Selection)
    requires Valid(s)
    ensures Valid(r)
    ensures IsSelected(r, item) <==> !IsSelected(s, item)
  {
    ToggleFlipsKey(s, item, None);
    Toggled(s, item, None)
  }

  /** Selecting a service shows its counter when it allows a quantity, at
      1, and its add-on list when it has add-ons, with no add-on ticked when
      none was; deselecting it hides both and unticks every add-on. */
  lemma CardClickShowsAndHides(s: Selection, item: Item)
    requires Valid(s)
    ensures var r := CardClick(s, item);
      && (!IsSelected(s, item) ==>
            && (ShowQuantityCounter(r, item) <==> item.allowQuantity)
            && (ShowAddOns(r, item) <==> |item.addOns| > 0)
            && DisplayedQuantity(r, item) == 1
            && forall a :: a in item.addOns && !AddOnChecked(s, item, a) ==> !AddOnChecked(r, item, a))
      && (IsSelected(s, item) ==>
            && !ShowQuantityCounter(r, item)
            && !ShowAddOns(r, item)
            && DisplayedQuantity(r, item) == 0
            && forall a :: a in item.addOns ==> !AddOnChecked(r, item, a))
  {
    if IsSelected(s, item) {
      ToggleRemoves(s, item, None);
    } else {
      ToggleInserts(s, item, None);
    }
  }

  /** The selection after a click on a quantity button. */
  function QuantityClick(s: Selection, item: Item, delta: int): (r: Selection)
    requires Valid(s)
    ensures Valid(r)
    ensures r.order == s.order
  {
    QuantityUpdated(s, item.name, delta)
  }

  /** The selection after a click on an add-on row: the click toggles the
      add-on only while the card's service is selected. */
  function AddOnClick(s: Selection, item: Item, addOn: Item): (r: Selection)
    requires Valid(s)
    ensures Valid(r)
  {
    if IsSelected(s, item) then Toggled(s, addOn, Some(item)) else s
  }

  /** A click on an add-on row changes the selection exactly when the
      service is selected; it then ticks or unticks that add-on and leaves
      the service's own entry as it was, so the row never selects the
      service by itself. */
  lemma AddOnClickEffect(s: Selection, item: Item, addOn: Item)
    requires Valid(s) && addOn.addOns == []
    ensures AddOnClick(s, item, addOn) != s <==> IsSelected(s, item)
    ensures IsSelected(s, item) ==>
      var r := AddOnClick(s, item, addOn);
      && (AddOnChecked(r, item, addOn) <==> !AddOnChecked(s, item, addOn))
      && item.name in r.entries && r.entries[item.name] == s.entries[item.name]
  {
    if IsSelected(s, item) {
      var key := AddOnKey(item, addOn);
      ToggleFlipsKey(s, addOn, Some(item));
      if key in s.entries {
        ToggledRemovalEntries(s, addOn, Some(item));
        assert CascadeKeys(addOn) == {};
      } else {
        ToggledInsertionEntries(s, addOn, Some(item));
      }
    }
  }

  /** Clicking an add-on row twice while the service is selected gives back
      the selection as it was. */
  lemma AddOnClickTwice(s: Selection, item: Item, addOn: Item)
    requires Valid(s) && IsSelected(s, item)
    requires !AddOnChecked(s, item, addOn) && addOn.addOns == []
    ensures AddOnClick(AddOnClick(s, item, addOn), item, addOn) == s
  {
    var once := AddOnClick(s, item, addOn);
    AddOnClickEffect(s, item, addOn);
    ToggleAddOnTwice(s, addOn, item);
  }

  /** The decrement button is enabled exactly when the handler would accept
      the decrement: a counter that shows lets the user lower the quantity
      only down to 1. */
  lemma DecrementGuardAgreesWithHandler(s: Selection, item: Item)
    requires Valid(s) && ShowQuantityCounter(s, item)
    ensures !DecrementDisabled(DisplayedQuantity(s, item))
            <==> QuantityClick(s, item, -1) != s
    ensures !DecrementDisabled(DisplayedQuantity(s, item)) ==>
            QuantityClick(s, item, -1).entries[item.name].quantity == DisplayedQuantity(s, item) - 1
  {
    var e := s.entries[item.name];
    if e.quantity - 1 >= 1 {
      var r := QuantityClick(s, item, -1);
      assert r.entries[item.name].quantity != e.quantity;
    }
  }

  /** Under the selection's invariant the counter of a selected service
      shows at least 1. */
  lemma CounterShowsPositive(s: Selection, item: Item)
    requires QuantitiesPositive(s.entries) && IsSelected(s, item)
    ensures DisplayedQuantity(s, item) >= 1
  {
  }
}
