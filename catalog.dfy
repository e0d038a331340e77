/** The catalog of purchasable services and their add-ons (types.ts, data.ts). */
module Catalog {

  /** A service or an add-on. An add-on has the same shape minus its own
      add-ons and the quantity flag, so one datatype serves both: an add-on
      is an Item whose `addOns` is empty and whose `allowQuantity` is false.
      An absent `time_hours` or `time_days` is 0, which is how the roll-up
      treats it (it tests the field for truthiness). */
  datatype Item = Item(
    name: string,
    price: nat,
    hours: nat,
    days: nat,
    addOns: seq<Item>,
    allowQuantity: bool)

  /** The three named groups the page shows. */
  datatype ServiceData = ServiceData(pages: seq<Item>, customCode: seq<Item>, extras: seq<Item>)

  /** Every top-level service, in the order the page shows them. */
  function AllServices(d: ServiceData): (r: seq<Item>)
    ensures |r| == |d.pages| + |d.customCode| + |d.extras|
    ensures forall s :: s in r <==> s in d.pages || s in d.customCode || s in d.extras
  {
    d.pages + d.customCode + d.extras
  }

  function AddOn(name: string, price: nat, hours: nat, days: nat): Item
  {
    Item(name, price, hours, days, [], false)
  }

  /** The catalog shipped with the calculator. */
  const Data := ServiceData(
    [ Item("Static Page", 3900, 4, 0, [], true),
      Item("Dynamic Page (CMS)", 5900, 6, 0,
           [AddOn("Notion Database Sync", 2000, 2, 0)], true) ],
    [ Item("React / Custom Code Component", 4500, 5, 0,
           [ AddOn("3D Scene / Three.js Integration", 10000, 10, 0),
             AddOn("Simple Animation / Framer Motion", 2500, 2, 0),
             AddOn("Complex Animation / GSAP", 5000, 5, 0) ], false) ],
    [ Item("UX Consultation", 3000, 1, 0, [], false),
      Item("UX Research Report", 20000, 0, 7, [], false),
      Item("UX Test Report", 25000, 0, 10, [], false),
      Item("Notion Design System Docs", 15000, 15, 0, [], false),
      Item("Post-launch Support", 10000, 10, 0, [], false),
      Item("SEO Basic Optimization", 0, 2, 0, [], false) ])

  /** Each item is estimated in exactly one unit: hours or days. */
  predicate OneTimeUnit(i: Item)
  {
    (i.hours > 0) != (i.days > 0)
  }

  /** Every item of `c`, and every add-on of one, has one time unit. */
  predicate AllOneTimeUnit(c: seq<Item>)
  {
    forall i :: 0 <= i < |c| ==>
      OneTimeUnit(c[i]) && forall j :: 0 <= j < |c[i].addOns| ==> OneTimeUnit(c[i].addOns[j])
  }

  lemma AllOneTimeUnitJoin(a: seq<Item>, b: seq<Item>)
    requires AllOneTimeUnit(a) && AllOneTimeUnit(b)
    ensures AllOneTimeUnit(a + b)
  {
    forall i | 0 <= i < |a + b|
      ensures OneTimeUnit((a + b)[i]) && forall j :: 0 <= j < |(a + b)[i].addOns| ==> OneTimeUnit((a + b)[i].addOns[j])
    {
      if i < |a| {
        assert (a + b)[i] == a[i];
      } else {
        assert (a + b)[i] == b[i - |a|];
      }
    }
  }

  lemma {:induction false} DataHasOneTimeUnitEach()
    ensures forall s :: s in AllServices(Data) ==> OneTimeUnit(s)
    ensures forall s, a :: s in AllServices(Data) && a in s.addOns ==> OneTimeUnit(a)
  {
    assert AllOneTimeUnit(Data.pages);
    assert AllOneTimeUnit(Data.customCode);
    assert AllOneTimeUnit(Data.extras);
    AllOneTimeUnitJoin(Data.pages, Data.customCode);
    AllOneTimeUnitJoin(Data.pages + Data.customCode, Data.extras);
    var all := AllServices(Data);
    forall s, a | s in all && a in s.addOns ensures OneTimeUnit(a) {
      var i :| 0 <= i < |all| && all[i] == s;
      var j :| 0 <= j < |s.addOns| && s.addOns[j] == a;
    }
  }
}
