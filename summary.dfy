/** The summary dock (components/Package/Summary.tsx): hours rolled over into
    working days, which time units the header shows, and the line shown for
    each selected entry. */
module Summary {
  import opened Catalog
  import opened App
  import opened NumberText

  /** A duration in working days and hours; a working day is 8 hours. */
  datatype Time = Time(days: int, hours: int)

  const HoursPerDay := 8

  /** The same duration counted in hours. */
  function InHours(t: Time): int
  {
    HoursPerDay * t.days + t.hours
  }

  // ---------------------------------------------------------------------
  // Normalisation

  /** The effective days and hours the dock shows for the given totals: when
      there are 8 hours or more, every whole 8 hours becomes a day and the
      remainder stays as hours; fewer hours pass through untouched. */
  function Effective(totalHours: int, totalDays: int): (r: Time)
    ensures r.hours < HoursPerDay
    ensures InHours(r) == InHours(Time(totalDays, totalHours))
    ensures totalHours >= 0 ==> 0 <= r.hours && r.days >= totalDays
  {
    if totalHours >= HoursPerDay
    then Time(totalDays + totalHours / HoursPerDay, totalHours % HoursPerDay)
    else Time(totalDays, totalHours)
  }

  /** The normalisation as the dock runs it, on local copies of the totals. */
  method Normalize(totalHours: int, totalDays: int) returns (effectiveDays: int, effectiveHours: int)
    ensures Time(effectiveDays, effectiveHours) == Effective(totalHours, totalDays)
  {
    var hours := totalHours;
    var days := totalDays;
    if hours >= HoursPerDay {
      days := days + hours / HoursPerDay;
      hours := hours % HoursPerDay;
    }
    effectiveDays, effectiveHours := days, hours;
  }

  /** Fewer than 8 hours are left as they are. */
  lemma EffectivePassesThrough(totalHours: int, totalDays: int)
    requires totalHours < HoursPerDay
    ensures Effective(totalHours, totalDays) == Time(totalDays, totalHours)
  {
  }

  /** For a non-negative number of hours the result is the one split of the
      duration into days and 0 to 7 hours: it is determined by the duration
      alone. */
  lemma EffectiveUnique(totalHours: int, totalDays: int, t: Time)
    requires totalHours >= 0
    requires 0 <= t.hours < HoursPerDay
    requires InHours(t) == InHours(Time(totalDays, totalHours))
    ensures Effective(totalHours, totalDays) == t
  {
    var r := Effective(totalHours, totalDays);
    WholeDaysApart(r.days - t.days, t.hours - r.hours);
  }

  lemma WholeDaysApart(x: int, y: int)
    requires HoursPerDay * x == y && -HoursPerDay < y < HoursPerDay
    ensures x == 0
  {
  }

  /** Normalising an already normalised time changes nothing. */
  lemma EffectiveIdempotent(totalHours: int, totalDays: int)
    ensures var r := Effective(totalHours, totalDays);
      Effective(r.hours, r.days) == r
  {
  }

  /** Ten hours and no days show as one day and two hours. */
  lemma EffectiveTenHours()
    ensures Effective(10, 0) == Time(1, 2)
  {
  }

  // ---------------------------------------------------------------------
  // The time shown in the header

  /** One piece of the header's time: a count of days, a count of hours, or
      the literal "0h". */
  datatype TimePart = DaysPart(days: int) | HoursPart(hours: int) | ZeroHours

  /** The time pieces shown, in order: the days when there are any, the
      hours when there are any, and "0h" for a priced selection with no
      time. */
  function TimeParts(totalPrice: int, t: Time): (r: seq<TimePart>)
    ensures DaysPart(t.days) in r <==> t.days > 0
    ensures HoursPart(t.hours) in r <==> t.hours > 0
    ensures ZeroHours in r <==> totalPrice > 0 && t.days == 0 && t.hours == 0
    ensures |r| <= 2
  {
    (if t.days > 0 then [DaysPart(t.days)] else [])
    + (if t.hours > 0 then [HoursPart(t.hours)] else [])
    + (if totalPrice > 0 && t.days == 0 && t.hours == 0 then [ZeroHours] else [])
  }

  /** The duration the shown pieces add up to, in hours. */
  function ShownHours(parts: seq<TimePart>): int
  {
    if parts == [] then 0
    else
      var rest := ShownHours(parts[1..]);
      match parts[0]
      case DaysPart(d) => HoursPerDay * d + rest
      case HoursPart(h) => h + rest
      case ZeroHours => rest
  }

  /** For non-negative totals the header shows exactly the time the
      selection adds up to: nothing of it is lost by the roll-over or by
      hiding a zero unit. */
  lemma {:induction false} HeaderShowsTotalTime(totalPrice: int, totalHours: int, totalDays: int)
    requires totalHours >= 0 && totalDays >= 0
    ensures ShownHours(TimeParts(totalPrice, Effective(totalHours, totalDays)))
            == HoursPerDay * totalDays + totalHours
  {
    var t := Effective(totalHours, totalDays);
    var ds: seq<TimePart> := if t.days > 0 then [DaysPart(t.days)] else [];
    var hs: seq<TimePart> := if t.hours > 0 then [HoursPart(t.hours)] else [];
    var zs: seq<TimePart> := if totalPrice > 0 && t.days == 0 && t.hours == 0 then [ZeroHours] else [];
    assert ShownHours(zs) == 0;
    assert ShownHours(hs + zs) == t.hours + ShownHours(zs) by {
      if hs != [] { assert (hs + zs)[1..] == zs; }
    }
    assert ShownHours(ds + (hs + zs)) == HoursPerDay * t.days + ShownHours(hs + zs) by {
      if ds != [] { assert (ds + (hs + zs))[1..] == hs + zs; }
    }
    assert ds + hs + zs == ds + (hs + zs);
  }

  /** For non-negative totals the header shows no time at all exactly when
      nothing is priced and there is no time to show. */
  lemma HeaderTimeBlank(totalPrice: int, totalHours: int, totalDays: int)
    requires totalHours >= 0 && totalDays >= 0
    ensures TimeParts(totalPrice, Effective(totalHours, totalDays)) == []
            <==> totalPrice <= 0 && totalHours == 0 && totalDays == 0
  {
    var t := Effective(totalHours, totalDays);
    if totalHours > 0 || totalDays > 0 {
      assert t.days > 0 || t.hours > 0;
    }
  }

  // ---------------------------------------------------------------------
  // The expanded list

  /** What a line shows as its price. */
  datatype LinePrice = Free | Amount(bdt: int)

  /** One line of the expanded list: the item's name, the quantity tag and
      the price. */
  datatype Line = Line(name: string, quantityTag: string, price: LinePrice)

  /** "(xN)" for a quantity above one, nothing otherwise. */
  function QuantityTag(quantity: int): (r: string)
    ensures r != [] <==> quantity > 1
    ensures quantity > 1 ==> |r| >= 4 && r[..2] == "(x" && r[|r| - 1] == ')'
  {
    if quantity > 1 then "(x" + Digits(quantity) + ")" else ""
  }

  /** The tag reads back as the quantity. */
  lemma QuantityTagReadsBack(quantity: int)
    requires quantity > 1
    ensures var r := QuantityTag(quantity);
      AllDigits(r[2..|r| - 1]) && ValueOf(r[2..|r| - 1]) == quantity
  {
    var r := QuantityTag(quantity);
    assert r[2..|r| - 1] == Digits(quantity);
    ValueOfDigits(quantity);
  }

  /** The line of one entry: "Free" for an item priced at zero, otherwise
      the item's price times the quantity. */
  function LineOf(e: Entry): (r: Line)
    ensures r.name == e.item.name
    ensures r.price == Free <==> e.item.price == 0
  {
    Line(e.item.name, QuantityTag(e.quantity),
         if e.item.price == 0 then Free else Amount(e.item.price * e.quantity))
  }

  /** The amount a line shows; a free line shows none. */
  function LineAmount(l: Line): int
  {
    match l.price
    case Free => 0
    case Amount(n) => n
  }

  /** A line's amount is the price its entry adds to the total. */
  lemma LineAmountIsCost(e: Entry)
    ensures LineAmount(LineOf(e)) == Cost(e).price
  {
  }

  /** The lines of the entries under `keys`, in order. */
  function LinesOf(keys: seq<string>, m: map<string, Entry>): (r: seq<Line>)
    requires AllIn(keys, m)
    ensures |r| == |keys|
    ensures forall i :: 0 <= i < |keys| ==> r[i] == LineOf(m[keys[i]])
  {
    if keys == [] then []
    else LinesOf(keys[..|keys| - 1], m) + [LineOf(m[keys[|keys| - 1]])]
  }

  /** The sum of the amounts of some lines. */
  function LinesAmount(lines: seq<Line>): int
  {
    if lines == [] then 0
    else LinesAmount(lines[..|lines| - 1]) + LineAmount(lines[|lines| - 1])
  }

  /** The amounts of the lines add up to the price total. */
  lemma {:induction false} LinesAddUp(keys: seq<string>, m: map<string, Entry>)
    requires AllIn(keys, m)
    ensures LinesAmount(LinesOf(keys, m)) == SumOver(keys, m).price
  {
    if keys != [] {
      var init := keys[..|keys| - 1];
      LinesAddUp(init, m);
      var ls := LinesOf(keys, m);
      assert ls[..|ls| - 1] == LinesOf(init, m);
      LineAmountIsCost(m[keys[|keys| - 1]]);
    }
  }

  /** What the expanded dock shows: the placeholder text or the list. */
  datatype Body = Placeholder | List(lines: seq<Line>)

  /** The expanded dock: one line per entry in insertion order, or the
      placeholder when nothing is selected. */
  function SummaryBody(s: Selection): (r: Body)
    requires Valid(s)
    ensures r.List? ==> |r.lines| == |s.order|
  {
    if |s.order| > 0 then List(LinesOf(s.order, s.entries)) else Placeholder
  }

  /** The placeholder shows exactly when the selection is empty, and the
      list otherwise has one line per entry whose amounts add up to the
      price total. */
  lemma SummaryBodyMatchesSelection(s: Selection)
    requires Valid(s)
    ensures SummaryBody(s) == Placeholder <==> s.entries == map[]
    ensures SummaryBody(s).List? ==>
      && |SummaryBody(s).lines| == |s.entries|
      && LinesAmount(SummaryBody(s).lines) == TotalsOf(s).price
  {
    OrderCountsEntries(s);
    if s.order != [] {
      LinesAddUp(s.order, s.entries);
    }
  }
}
