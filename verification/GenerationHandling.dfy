/** What `repair_generation_output` does about each kind of issue, said from the issue's id and category, the route's
    legs and the itinerary as it stands: which item is rewritten and how, what is added, what is logged. */
module GenerationHandling {
  import opened Wrappers
  import opened Text
  import opened Clock
  import opened Sequences
  import opened Itinerary
  import opened GenerationRepair
  import opened GenerationRepairLaws
  import opened RepairTargets
  import opened RepairEffects

  // ---------- kinds of issues ----------

  ghost predicate IsSchemaIssue(issue: Issue) {
    "schema_missing_required_field" <= Lower(issue.id)
  }

  ghost predicate IsTransportIssue(issue: Issue) {
    !IsSchemaIssue(issue)
    && (Contains(Lower(issue.id), "activity_during_transport") || Contains(Lower(issue.id), "activity_before_transport"))
  }

  ghost predicate IsTransferIssue(issue: Issue) {
    !IsSchemaIssue(issue) && !IsTransportIssue(issue)
    && (Contains(Lower(issue.id), "transfer_item_missing") || Contains(Lower(issue.id), "missing_transfer_between_stops"))
  }

  ghost predicate IsClosedIssue(issue: Issue) {
    !IsSchemaIssue(issue) && !IsTransportIssue(issue) && !IsTransferIssue(issue)
    && Contains(Lower(issue.id), "place_likely_closed")
  }

  ghost predicate IsBudgetIssue(issue: Issue) {
    !IsSchemaIssue(issue) && !IsTransportIssue(issue) && !IsTransferIssue(issue) && !IsClosedIssue(issue)
    && (issue.category == "budget" || Contains(Lower(issue.id), "budget"))
  }

  // ---------- what an issue points at ----------

  /** The item the issue names by day number and index, in the first day under that number which is long enough. */
  ghost predicate PointsAt(days: seq<Day>, issue: Issue, t: Address) {
    && issue.day.Some? && issue.item == Some(t.i)
    && t.d < |days| && IsNumbered(days[t.d], issue.day.value) && t.i < |days[t.d].items|
    && forall e :: 0 <= e < t.d && IsNumbered(days[e], issue.day.value) ==> t.i >= |days[e].items|
  }

  ghost predicate IsLastColon(s: string, i: nat) {
    i < |s| && s[i] == ':' && forall k :: i < k < |s| ==> s[k] != ':'
  }

  /** The leg id an issue names: its own, else what follows the last colon of the issue's id, or nothing. */
  ghost predicate NamesLegId(issue: Issue, name: string) {
    if issue.legId != "" then name == issue.legId
    else
      || (name == "" && ':' !in issue.id)
      || (exists i: nat :: IsLastColon(issue.id, i) && name == Strip(issue.id[i + 1..]))
  }

  /** The first leg of the route that has the id the issue names. */
  ghost predicate IsNamedLeg(request: Request, issue: Issue, leg: Leg) {
    exists k :: 0 <= k < |request.legs| && leg == request.legs[k] && NamesLegId(issue, leg.id)
                && forall j :: 0 <= j < k ==> request.legs[j].id != leg.id
  }

  /** The arrival of the named leg's selected transport, empty when there is none. */
  ghost predicate IsArrival(request: Request, issue: Issue, arrival: string) {
    || (exists leg :: IsNamedLeg(request, issue, leg) && leg.selected.Some? && arrival == leg.selected.value.arrival)
    || (arrival == "" && forall leg :: IsNamedLeg(request, issue, leg) ==> leg.selected.None?)
  }

  lemma LocatedIsPointedAt(days: seq<Day>, issue: Issue, t: Address)
    ensures ItemOf(days, issue) == Some(t) <==> PointsAt(days, issue, t)
  {
    if issue.day.Some? && issue.item.Some? {
      LocateNames(days, issue.day.value, issue.item.value, 0);
    }
  }

  lemma LegIdIsNamed(issue: Issue, name: string)
    ensures NamedLegId(issue) == name <==> NamesLegId(issue, name)
  {
    hide Strip;
    var found := FindLast(issue.id, ':');
    if found.Some? {
      assert IsLastColon(issue.id, found.value);
    }
    assert forall i: nat :: IsLastColon(issue.id, i) ==> found == Some(i);
  }

  lemma {:induction false} FoundLegIsFirst(legs: seq<Leg>, id: string) returns (k: nat)
    ensures FindLeg(legs, id).None? ==> forall j :: 0 <= j < |legs| ==> legs[j].id != id
    ensures FindLeg(legs, id).Some? ==> IsFirstLeg(legs, id, k, FindLeg(legs, id).value)
  {
    k := 0;
    if legs != [] && legs[0].id != id {
      k := FoundLegIsFirst(legs[1..], id);
      assert forall j :: 0 < j < |legs| ==> legs[j] == legs[1..][j - 1];
      k := k + 1;
    }
  }

  ghost predicate IsFirstLeg(legs: seq<Leg>, id: string, k: int, leg: Leg) {
    0 <= k < |legs| && leg == legs[k] && leg.id == id && forall j :: 0 <= j < k ==> legs[j].id != id
  }

  lemma LegIsNamed(request: Request, issue: Issue, leg: Leg)
    ensures LegOf(request, issue) == Some(leg) <==> IsNamedLeg(request, issue, leg)
  {
    hide NamesLegId, NamedLegId, FindLeg;
    var id := NamedLegId(issue);
    var k := FoundLegIsFirst(request.legs, id);
    LegIdIsNamed(issue, id);
    LegIdIsNamed(issue, leg.id);
    if IsNamedLeg(request, issue, leg) {
      var m :| 0 <= m < |request.legs| && leg == request.legs[m] && NamesLegId(issue, leg.id)
               && forall j :: 0 <= j < m ==> request.legs[j].id != leg.id;
      assert request.legs[m].id == id;
      assert k == m;
    }
  }

  lemma ArrivalIs(request: Request, issue: Issue)
    ensures forall arrival :: IsArrival(request, issue, arrival) <==> ArrivalOf(request, issue) == arrival
  {
    hide IsNamedLeg, LegOf;
    forall leg
      ensures LegOf(request, issue) == Some(leg) <==> IsNamedLeg(request, issue, leg)
    {
      LegIsNamed(request, issue, leg);
    }
  }

  // ---------- moved items ----------

  /** Only the item at the place is rewritten, and the change is logged. */
  ghost predicate Rewrites(l: Ledger, after: Ledger, t: Address, item: Item, change: Change)
    requires t.d < |l.days| && t.i < |l.days[t.d].items|
  {
    && after.days == l.days[t.d := l.days[t.d].(items := l.days[t.d].items[t.i := item])]
    && after.changes == l.changes + [change]
  }

  /** How long an item takes: its duration, else from its time to its end, else 90 minutes. */
  ghost function LengthOf(item: Item): int {
    var start, end := ToMinutes(item.time), if item.endTime.Some? then ToMinutes(item.endTime.value) else None;
    if item.duration.Some? && item.duration.value > 0 then item.duration.value
    else if start.Some? && end.Some? && end.value > start.value then end.value - start.value
    else 90
  }

  /** From 30 minutes after the arrival on, or after noon when that cannot be read, for as long as before, both
      ends cut off at 23:59. */
  ghost predicate IsBehind(before: Item, item: Item, arrival: string) {
    var start := (if ToMinutes(arrival).Some? then ToMinutes(arrival).value else 720) + 30;
    && item == before.(time := item.time, endTime := item.endTime,
                       note := AppendNote(before.note, "AI repair moved this after the selected transport arrival."))
    && IsClock(item.time) && ToMinutes(item.time) == Some(if start > 1439 then 1439 else start)
    && item.endTime.Some? && IsClock(item.endTime.value)
    && var end := ToMinutes(item.time).value + LengthOf(before);
       ToMinutes(item.endTime.value) == Some(if end > 1439 then 1439 else end)
  }

  lemma LengthIsDuration(item: Item)
    ensures DurationOf(item, 90) == LengthOf(item)
  {
    hide ToMinutes;
    NothingIsNoTime();
  }

  lemma NothingIsNoTime()
    ensures ToMinutes("") == None
  {
  }

  lemma AfterTransportIsBehind(item: Item, arrival: string)
    ensures IsBehind(item, AfterTransport(item, arrival), arrival)
  {
    LengthIsDuration(item);
    MovedItemKeepsItsLength(item, arrival);
    var given := if arrival == "" then "12:00" else arrival;
    AddMinutesIsClamped(given, 30);
    AddMinutesIsClamped(AddMinutes(given, 30), DurationOf(item, 90));
    hide ToMinutes, AddMinutes, DurationOf, LengthOf, IsClock, AppendNote;
  }

  /** A transport issue moves the item it points at behind the arrival of the leg it names, and that is all. */
  lemma TransportIssueMovesItem(l: Ledger, issue: Issue, request: Request)
    requires IsTransportIssue(issue)
    ensures var after := Handled(l, issue, request);
            && (forall t, arrival :: PointsAt(l.days, issue, t) && IsArrival(request, issue, arrival) ==>
                  exists item :: IsBehind(l.days[t.d].items[t.i], item, arrival)
                                 && Rewrites(l, after, t, item, Change(ItemMoved, issue.day, issue.item)))
            && ((forall t :: !PointsAt(l.days, issue, t)) ==> after == l)
  {
    hide Lower, Contains, ItemOf, PointsAt, IsArrival, ArrivalOf, AfterTransport, IsBehind;
    hide SchemaRepaired, TransferAdded, MovedToOpeningHours, CostRiskReduced;
    var after := Handled(l, issue, request);
    assert after == MovedAfterTransport(l, issue, request);
    ArrivalIs(request, issue);
    var arrival := ArrivalOf(request, issue);
    forall t
      ensures ItemOf(l.days, issue) == Some(t) <==> PointsAt(l.days, issue, t)
    {
      LocatedIsPointedAt(l.days, issue, t);
    }
    if ItemOf(l.days, issue).Some? {
      var t := ItemOf(l.days, issue).value;
      PointedAtIsThere(l.days, issue, t);
      var item := AfterTransport(l.days[t.d].items[t.i], arrival);
      AfterTransportIsBehind(l.days[t.d].items[t.i], arrival);
      assert Rewrites(l, after, t, item, Change(ItemMoved, issue.day, issue.item));
    }
  }

  lemma PointedAtIsThere(days: seq<Day>, issue: Issue, t: Address)
    requires PointsAt(days, issue, t)
    ensures InRange(days, t)
  {
  }

  /** From ten to half past eleven, the end only where there was one. */
  ghost predicate IsInTheMorning(before: Item, item: Item) {
    && item == before.(time := "10:00", endTime := item.endTime,
                       note := AppendNote(before.note, "AI repair moved this to a safer daytime opening-hours window."))
    && item.endTime == if before.endTime == None then None else Some("11:30")
  }

  /** A closed-place issue moves the item it points at into the morning, and that is all. */
  lemma ClosedIssueMovesItem(l: Ledger, issue: Issue, request: Request)
    requires IsClosedIssue(issue)
    ensures var after := Handled(l, issue, request);
            && (forall t :: PointsAt(l.days, issue, t) ==>
                  exists item :: IsInTheMorning(l.days[t.d].items[t.i], item)
                                 && Rewrites(l, after, t, item, Change(ItemMoved, issue.day, issue.item)))
            && ((forall t :: !PointsAt(l.days, issue, t)) ==> after == l)
  {
    hide Lower, Contains, ItemOf, PointsAt, InOpeningHours, IsInTheMorning;
    hide SchemaRepaired, TransferAdded, MovedAfterTransport, CostRiskReduced;
    var after := Handled(l, issue, request);
    assert after == MovedToOpeningHours(l, issue);
    forall t
      ensures ItemOf(l.days, issue) == Some(t) <==> PointsAt(l.days, issue, t)
    {
      LocatedIsPointedAt(l.days, issue, t);
    }
    if ItemOf(l.days, issue).Some? {
      var t := ItemOf(l.days, issue).value;
      PointedAtIsThere(l.days, issue, t);
      var item := InOpeningHours(l.days[t.d].items[t.i]);
      MovedIntoTheMorning(l.days[t.d].items[t.i]);
      assert Rewrites(l, after, t, item, Change(ItemMoved, issue.day, issue.item));
    }
  }

  lemma MovedIntoTheMorning(item: Item)
    ensures IsInTheMorning(item, InOpeningHours(item))
  {
  }

  /** The item a closed-place issue points at ends up at 10:00, until 11:30 exactly when it had an end, with its
      name, kind and cost, and it is late no more. */
  lemma OpeningHoursMove(l: Ledger, issue: Issue, request: Request, at: Address)
    requires IsClosedIssue(issue) && PointsAt(l.days, issue, at)
    ensures var days := Handled(l, issue, request).days;
            && InRange(days, at) && !IsLate(days[at.d].items[at.i])
            && InTheMorning(l.days[at.d].items[at.i], days[at.d].items[at.i])
  {
    ClosedIssueMovesItem(l, issue, request);
    hide IsClosedIssue, PointsAt, Handled, IsLate, InTheMorning;
    PointedAtIsThere(l.days, issue, at);
    var before := l.days[at.d].items[at.i];
    var item :| IsInTheMorning(before, item)
                && Rewrites(l, Handled(l, issue, request), at, item, Change(ItemMoved, issue.day, issue.item));
    assert item == InOpeningHours(before);
    OpeningHoursAre(before);
  }

  // ---------- the dearest item ----------

  ghost predicate WasReduced(before: Item, after: Item, currency: string) {
    && after == before.(cost := after.cost, name := MarkedName(before.name, "lower-cost"),
                        note := AppendNote(before.note, "AI repair lowered this estimated cost for reliability validation."))
    && IsCutCost(before, after.cost, currency)
  }

  /** No item comes before this one in the order of dearness. */
  ghost predicate IsDearest(days: seq<Day>, t: Address) {
    IsCostly(days, t) && forall u :: IsCostly(days, u) && u != t ==> CutsBefore(days, t, u)
  }

  lemma CheaperIsReduced(item: Item, currency: string)
    requires Price(item) > 0.0
    ensures WasReduced(item, Cheaper(item, currency), currency)
  {
    CutCostIsCut(item, currency);
    hide MarkedName, AppendNote, Reduced, IsCutCost, Price;
  }

  /** The first costly reference is the first of the costly references. */
  lemma {:induction false} FirstPositiveIsHead(days: seq<Day>, refs: seq<Address>, k: nat)
    requires k <= |refs|
    ensures var costly := Filter(refs[k..], Repair.CostsSomething(days));
            FirstPositive(days, refs, k) == if costly == [] then None else Some(costly[0])
    decreases |refs| - k
  {
    hide AmountAt;
    if k < |refs| {
      assert refs[k..][1..] == refs[k + 1..];
      FirstPositiveIsHead(days, refs, k + 1);
    }
  }

  lemma DearestIsFirst(days: seq<Day>)
    ensures forall t :: FirstPositive(days, ByCostDescending(days), 0) == Some(t) <==> IsDearest(days, t)
    ensures FirstPositive(days, ByCostDescending(days), 0) == None <==> forall t :: !IsCostly(days, t)
  {
    var refs := ByCostDescending(days);
    var all := Repair.BudgetTargets(days);
    assert refs[0..] == refs;
    FirstPositiveIsHead(days, refs, 0);
    CostliestFirst(days);
    assert forall t :: t in all <==> IsCostly(days, t);
    hide FirstPositive, ByCostDescending, Repair.BudgetTargets, IsCostly, CutsBefore;
    if all != [] {
      var first := all[0];
      assert first in all;
      forall u | IsCostly(days, u) && u != first
        ensures CutsBefore(days, first, u) && !IsDearest(days, u)
      {
        var j :| 0 <= j < |all| && all[j] == u;
        assert CutsBefore(days, all[0], all[j]);
        OneIsDearer(days, first, u);
      }
    }
  }

  lemma OneIsDearer(days: seq<Day>, t: Address, u: Address)
    ensures CutsBefore(days, t, u) ==> !CutsBefore(days, u, t)
  {
  }

  /** A budget issue cuts the dearest item, of equals the one read first; it does nothing when nothing costs. */
  lemma BudgetIssueCutsDearest(l: Ledger, issue: Issue, request: Request)
    requires IsBudgetIssue(issue)
    ensures var after := Handled(l, issue, request);
            && (forall t :: IsDearest(l.days, t) ==>
                  exists item, number ::
                    && WasReduced(l.days[t.d].items[t.i], item, request.currency)
                    && Rewrites(l, after, t, item, Change(ItemCostReduced, number, Some(t.i)))
                    && forall n :: number == Some(n) <==> IsNumbered(l.days[t.d], n))
            && ((forall t :: !IsCostly(l.days, t)) ==> after == l)
  {
    hide Lower, Contains, FirstPositive, ByCostDescending, IsDearest, Cheaper, WasReduced;
    hide SchemaRepaired, TransferAdded, MovedAfterTransport, MovedToOpeningHours;
    var after := Handled(l, issue, request);
    assert after == CostRiskReduced(l, request.currency);
    DearestIsFirst(l.days);
    var found := FirstPositive(l.days, ByCostDescending(l.days), 0);
    if found.Some? {
      var t := found.value;
      DearestIsThere(l.days, t);
      var before := l.days[t.d].items[t.i];
      CheaperIsReduced(before, request.currency);
      var number := DayNumber(l.days[t.d]);
      assert Rewrites(l, after, t, Cheaper(before, request.currency), Change(ItemCostReduced, number, Some(t.i)));
      assert forall n :: number == Some(n) <==> IsNumbered(l.days[t.d], n);
    }
  }

  lemma DearestIsThere(days: seq<Day>, t: Address)
    requires IsDearest(days, t)
    ensures InRange(days, t) && Price(days[t.d].items[t.i]) > 0.0
  {
  }

  /** Any other issue changes nothing. */
  lemma OtherIssuesChangeNothing(l: Ledger, issue: Issue, request: Request)
    requires !IsSchemaIssue(issue) && !IsTransportIssue(issue) && !IsTransferIssue(issue)
    requires !IsClosedIssue(issue) && !IsBudgetIssue(issue)
    ensures Handled(l, issue, request) == l
  {
    hide Lower, Contains;
  }

  // ---------- placeholders ----------

  /** The number as `str` writes it. */
  ghost predicate IsWritten(text: string, n: int) {
    if n >= 0 then IsNumeral(text, n) else text != "" && text[0] == '-' && IsNumeral(text[1..], -n)
  }

  ghost predicate IsTitle(title: string, n: int, rest: string) {
    exists text :: IsWritten(text, n) && title == "Day " + text + rest
  }

  ghost predicate IsFreeBlock(item: Item, end: string, name: string, note: string, currency: string) {
    && item.time == "10:00" && item.endTime == Some(end) && item.kind == "activity" && item.name == name
    && item.note == note && item.cost == Priced(Some(0.0), Code(currency), true) && item.leg == None && item.duration == None
  }

  /** One flexible block from ten to half past eleven. */
  ghost predicate IsPlaceholder(day: Day, n: int, currency: string) {
    && day.number == Some(n) && IsTitle(day.title, n, ": flexible repaired plan") && day.stop == "" && |day.items| == 1
    && IsFreeBlock(day.items[0], "11:30", "Flexible itinerary block",
                   "Added by AI repair to keep the trip duration complete.", currency)
  }

  ghost predicate IsFiller(item: Item, currency: string) {
    IsFreeBlock(item, "11:00", "Flexible repaired item",
                "Added by AI repair to complete a required itinerary field.", currency)
  }

  lemma NumberIsWritten(n: int)
    ensures IsWritten(if n < 0 then "-" + Decimal(-n) else Decimal(n), n)
  {
    if n < 0 {
      DecimalIsNumeral(-n);
      assert ("-" + Decimal(-n))[1..] == Decimal(-n);
    } else {
      DecimalIsNumeral(n);
    }
  }

  lemma LabelledTitle(n: int, rest: string)
    ensures IsTitle(DayLabel(n) + rest, n, rest)
  {
    NumberIsWritten(n);
    hide IsWritten;
  }

  lemma PlaceholderIs(n: int, currency: string)
    ensures IsPlaceholder(PlaceholderDay(n, currency), n, currency)
  {
    LabelledTitle(n, ": flexible repaired plan");
    hide IsTitle, DayLabel;
  }

  lemma FillerIs(currency: string)
    ensures IsFiller(PlaceholderItem(currency), currency)
  {
  }

  // ---------- the day an issue names ----------

  ghost predicate IsFirstNumbered(days: seq<Day>, n: int, d: nat) {
    d < |days| && IsNumbered(days[d], n) && forall e :: 0 <= e < d ==> !IsNumbered(days[e], n)
  }

  /** `days` are the given ones, in which the day at `d` is the first with the number, or have a placeholder
      appended for a number that none has. */
  ghost predicate HasDay(given: seq<Day>, n: int, currency: string, days: seq<Day>, d: nat) {
    || (days == given && IsFirstNumbered(given, n, d))
    || (d == |given| && |days| == d + 1 && days[..d] == given && IsPlaceholder(days[d], n, currency)
        && forall e :: 0 <= e < |given| ==> !IsNumbered(given[e], n))
  }

  lemma WithDayHasDay(days: seq<Day>, n: int, currency: string)
    ensures var (after, d) := WithDay(days, n, currency);
            HasDay(days, n, currency, after, d)
  {
    DayAtInRange(days, n, 0);
    PlaceholderIs(n, currency);
    hide PlaceholderDay, IsPlaceholder, DayAt;
    assert (days + [PlaceholderDay(n, currency)])[..|days|] == days;
    assert forall e, m :: 0 <= e < |days| ==> (DayNumber(days[e]) == Some(m) <==> IsNumbered(days[e], m));
  }

  // ---------- transfers ----------

  /** The leg's transport as an item: its times where they are known, its name, price and positive duration. */
  ghost predicate IsTransferOf(item: Item, leg: Leg, id: string, currency: string) {
    && item.time == (if leg.selected == None || leg.selected.value.departure == "" then "09:00"
                     else leg.selected.value.departure)
    && item.endTime == (if leg.selected == None || leg.selected.value.arrival == "" then None
                        else Some(leg.selected.value.arrival))
    && item.kind == "transport" && item.name == leg.name
    && item.note == "Added by AI repair to match selected route transport."
    && item.cost == Priced(Some(leg.cents), Code(currency), true) && item.leg == Some(id)
    && item.duration == if leg.duration.Some? && leg.duration.value > 0 then leg.duration else None
  }

  ghost predicate IsAtStop(days: seq<Day>, stop: string, d: nat) {
    d < |days| && stop != "" && days[d].stop == stop && exists n :: IsNumbered(days[d], n)
  }

  /** The day a transfer belongs to: the one the issue names, unless that is day 0, else the first numbered day at the
      stop the leg leads to, else the first day of all. */
  ghost predicate IsTransferDay(days: seq<Day>, issue: Issue, leg: Leg, n: int) {
    if issue.day.Some? && issue.day != Some(0) then issue.day == Some(n)
    else if exists d: nat :: IsAtStop(days, leg.toStop, d) then
      exists d: nat :: IsAtStop(days, leg.toStop, d) && IsNumbered(days[d], n)
                       && forall e: nat :: e < d ==> !IsAtStop(days, leg.toStop, e)
    else days != [] && IsNumbered(days[0], n)
  }

  lemma {:induction false} StopIsFirst(days: seq<Day>, stop: string, d: nat) returns (at: nat)
    requires d <= |days|
    ensures FirstAtStop(days, stop, d).Some? ==>
              && d <= at && IsAtStop(days, stop, at) && IsNumbered(days[at], FirstAtStop(days, stop, d).value)
              && forall e: nat :: d <= e < at ==> !IsAtStop(days, stop, e)
    ensures FirstAtStop(days, stop, d).None? ==> forall e: nat :: d <= e ==> !IsAtStop(days, stop, e)
    decreases |days| - d
  {
    at := d;
    if d < |days| {
      assert DayNumber(days[d]).Some? <==> exists n :: IsNumbered(days[d], n) by {
        if DayNumber(days[d]).Some? {
          assert IsNumbered(days[d], DayNumber(days[d]).value);
        }
      }
      if !(stop != "" && days[d].stop == stop && DayNumber(days[d]).Some?) {
        at := StopIsFirst(days, stop, d + 1);
      }
    }
  }

  lemma TransferDayIs(days: seq<Day>, issue: Issue, leg: Leg, n: int)
    ensures TransferDay(days, issue, leg) == Some(n) <==> IsTransferDay(days, issue, leg, n)
  {
    var at := StopIsFirst(days, leg.toStop, 0);
    hide FirstAtStop, IsAtStop;
    if FirstAtStop(days, leg.toStop, 0).Some? {
      assert forall d: nat :: IsAtStop(days, leg.toStop, d) && (forall e: nat :: e < d ==> !IsAtStop(days, leg.toStop, e)) ==> d == at;
    }
  }

  lemma {:induction false} NoneOfLeg(items: seq<Item>, id: string)
    ensures Count(items, IsLeg(id)) > 0 <==> exists i :: 0 <= i < |items| && items[i].leg == Some(id)
  {
    if items != [] {
      NoneOfLeg(items[1..], id);
      assert forall i :: 0 < i < |items| ==> items[i] == items[1..][i - 1];
    }
  }

  lemma TransferItemIs(leg: Leg, id: string, currency: string)
    ensures IsTransferOf(TransferItem(leg, id, currency), leg, id, currency)
  {
  }

  /** The transfer is appended to the day, made if it was missing, unless that day has one of the leg. */
  ghost predicate AddsTransfer(
      l: Ledger, after: Ledger, leg: Leg, id: string, n: int, currency: string, days: seq<Day>, d: nat)
  {
    && HasDay(l.days, n, currency, days, d) && d < |days|
    && if exists i :: 0 <= i < |days[d].items| && days[d].items[i].leg == Some(id) then after == Ledger(days, l.changes)
       else
         && after.changes == l.changes + [Change(TransferItemAdded, Some(n), Some(|days[d].items|))]
         && exists item :: IsTransferOf(item, leg, id, currency)
                           && after.days == days[d := days[d].(items := days[d].items + [item])]
  }

  /** A transfer issue adds the transfer of the leg it names, when that leg, an id and a day can be found. */
  lemma TransferIssueAddsTransfer(l: Ledger, issue: Issue, request: Request, leg: Leg, n: int)
    requires IsTransferIssue(issue) && IsNamedLeg(request, issue, leg) && IsTransferDay(l.days, issue, leg, n)
    requires Strip(if leg.id != "" then leg.id else issue.legId) != ""
    ensures var id := Strip(if leg.id != "" then leg.id else issue.legId);
            exists days, d :: AddsTransfer(l, Handled(l, issue, request), leg, id, n, request.currency, days, d)
  {
    hide Lower, Contains, Strip, IsNamedLeg, LegOf, TransferDay, WithDay, HasDay, IsTransferDay, TransferItem, IsTransferOf;
    hide SchemaRepaired, MovedToOpeningHours, MovedAfterTransport, CostRiskReduced, Count;
    var after := Handled(l, issue, request);
    assert after == TransferAdded(l, issue, request);
    LegIsNamed(request, issue, leg);
    TransferDayIs(l.days, issue, leg, n);
    var id := TransferLegId(issue, leg);
    WithDayHasDay(l.days, n, request.currency);
    var (days, d) := WithDay(l.days, n, request.currency);
    DayIsThere(l.days, n, request.currency, days, d);
    NoneOfLeg(days[d].items, id);
    TransferItemIs(leg, id, request.currency);
    assert AddsTransfer(l, after, leg, id, n, request.currency, days, d);
  }

  lemma DayIsThere(given: seq<Day>, n: int, currency: string, days: seq<Day>, d: nat)
    requires HasDay(given, n, currency, days, d)
    ensures d < |days|
  {
  }

  /** Otherwise a transfer issue does nothing. */
  lemma TransferIssueNeedsLeg(l: Ledger, issue: Issue, request: Request)
    requires IsTransferIssue(issue)
    requires forall leg, n :: IsNamedLeg(request, issue, leg) && IsTransferDay(l.days, issue, leg, n) ==>
               Strip(if leg.id != "" then leg.id else issue.legId) == ""
    ensures Handled(l, issue, request) == l
  {
    hide Lower, Contains, Strip, IsNamedLeg, LegOf, TransferDay, WithDay, IsTransferDay, TransferItem;
    hide SchemaRepaired, MovedToOpeningHours, MovedAfterTransport, CostRiskReduced, Count;
    assert Handled(l, issue, request) == TransferAdded(l, issue, request);
    if LegOf(request, issue).Some? {
      var leg := LegOf(request, issue).value;
      LegIsNamed(request, issue, leg);
      if TransferDay(l.days, issue, leg).Some? {
        TransferDayIs(l.days, issue, leg, TransferDay(l.days, issue, leg).value);
      }
    }
  }

  // ---------- required fields ----------

  ghost predicate IsIncomplete(item: Item) {
    Strip(item.time) == "" || Strip(item.kind) == "" || Strip(item.name) == ""
  }

  /** Blank texts get their defaults and a structured cost a code in its tidy form; nothing else changes. */
  ghost predicate IsFilled(before: Item, item: Item, currency: string) {
    && item == before.(time := item.time, kind := item.kind, name := item.name, cost := item.cost)
    && item.time == (if Strip(before.time) == "" then "10:00" else before.time)
    && item.kind == (if Strip(before.kind) == "" then "activity" else before.kind)
    && item.name == (if Strip(before.name) == "" then "Flexible repaired item" else before.name)
    && if before.cost.Priced? then
         && item.cost.Priced? && item.cost == before.cost.(currency := item.cost.currency) && item.cost.currency.Code?
         && (IsUnder(before.cost, item.cost.currency.code)
             || (item.cost.currency.code == currency && forall code :: !IsUnder(before.cost, code)))
       else item.cost == before.cost
  }

  /** The named item is filled, after as many fillers as it takes to have one; without a name an empty day gets one. */
  ghost predicate HasItems(given: seq<Item>, issue: Issue, currency: string, items: seq<Item>, fixes: seq<Change>) {
    match issue.item
    case None =>
      if given == [] then |items| == 1 && IsFiller(items[0], currency) && fixes == [Change(ItemAdded, issue.day, Some(0))]
      else items == given && fixes == []
    case Some(i) =>
      && |items| == (if i < |given| then |given| else i + 1)
      && (forall j :: 0 <= j < |given| && j != i ==> items[j] == given[j])
      && (forall j :: |given| <= j < |items| ==> IsFiller(items[j], currency))
      && (i < |given| ==> IsFilled(given[i], items[i], currency))
      && fixes == if i < |given| && IsIncomplete(given[i]) then [Change(ItemSchemaFilled, issue.day, Some(i))] else []
  }

  ghost predicate IsTitled(before: Day, day: Day, n: int) {
    if Strip(before.title) == "" then day == before.(title := day.title) && IsTitle(day.title, n, ": repaired plan")
    else day == before
  }

  ghost predicate FillsDay(
      l: Ledger, after: Ledger, issue: Issue, n: int, currency: string, days: seq<Day>, d: nat, day: Day,
      items: seq<Item>, fixes: seq<Change>)
  {
    && HasDay(l.days, n, currency, days, d) && d < |days| && IsTitled(days[d], day, n)
    && HasItems(day.items, issue, currency, items, fixes)
    && after.days == days[d := day.(items := items)]
    && after.changes == l.changes + (if |days| > |l.days| then [Change(DayAdded, Some(n), None)] else [])
                      + (if Strip(days[d].title) == "" then [Change(DayTitleAdded, Some(n), None)] else []) + fixes
  }

  lemma SchemaFilledIsFilled(item: Item, currency: string)
    ensures IsFilled(item, SchemaFilled(item, currency), currency)
    ensures RecordedBefore(item, SchemaFilled(item, currency)) != CompactOf(SchemaFilled(item, currency)) <==> IsIncomplete(item)
  {
    hide Strip;
    DefaultsAreNonBlank();
    if item.cost.Priced? {
      var code := TidyCode(item.cost.currency, currency);
      assert IsUnder(item.cost, code) || (code == currency && forall other :: !IsUnder(item.cost, other));
    }
  }

  lemma {:induction false} PaddedIs(items: seq<Item>, size: nat, currency: string)
    requires size >= |items|
    ensures var padded := Padded(items, size, currency);
            && |padded| == size && padded[..|items|] == items
            && forall j :: |items| <= j < size ==> padded[j] == PlaceholderItem(currency)
    decreases size - |items|
  {
    hide PlaceholderItem;
    if |items| < size {
      var more := items + [PlaceholderItem(currency)];
      PaddedIs(more, size, currency);
      var padded := Padded(more, size, currency);
      assert padded[..|more|][..|items|] == items && padded[|items|] == padded[..|more|][|items|];
    }
  }

  lemma ItemsFilledHas(given: seq<Item>, issue: Issue, currency: string)
    ensures var (items, fixes) := ItemsFilled(given, issue, currency);
            HasItems(given, issue, currency, items, fixes)
  {
    hide Padded, PlaceholderItem, SchemaFilled, RecordedBefore, CompactOf, IsFilled, IsFiller, IsIncomplete;
    FillerIs(currency);
    match issue.item {
      case None =>
      case Some(i) =>
        PlaceholderIsComplete(currency);
        if i < |given| {
          PaddedIsSame(given, i + 1, currency);
          SchemaFilledIsFilled(given[i], currency);
        } else {
          PaddedIs(given, i + 1, currency);
          var padded := Padded(given, i + 1, currency);
          assert forall j :: 0 <= j < |given| ==> padded[j] == padded[..|given|][j];
        }
    }
  }

  lemma TitledIs(day: Day, n: int)
    ensures IsTitled(day, Titled(day, n), n)
    ensures Titled(day, n) != day <==> Strip(day.title) == ""
  {
    LabelledTitle(n, ": repaired plan");
    TitledHasTitle(day, n);
    hide IsTitle, Strip, DayLabel;
  }

  /** A schema issue that names a day has that day there, titled, and with the item it names complete. */
  lemma SchemaIssueFills(l: Ledger, issue: Issue, request: Request, n: int)
    requires IsSchemaIssue(issue) && issue.day == Some(n)
    ensures exists days, d, day, items, fixes ::
              FillsDay(l, Handled(l, issue, request), issue, n, request.currency, days, d, day, items, fixes)
  {
    hide Lower, Contains, Strip, WithDay, HasDay, Titled, IsTitled, ItemsFilled, HasItems;
    hide TransferAdded, MovedToOpeningHours, MovedAfterTransport, CostRiskReduced;
    var after := Handled(l, issue, request);
    assert after == SchemaRepaired(l, issue, request.currency);
    WithDayHasDay(l.days, n, request.currency);
    var (days, d) := WithDay(l.days, n, request.currency);
    DayIsThere(l.days, n, request.currency, days, d);
    TitledIs(days[d], n);
    var day := Titled(days[d], n);
    ItemsFilledHas(day.items, issue, request.currency);
    var (items, fixes) := ItemsFilled(day.items, issue, request.currency);
    assert FillsDay(l, after, issue, n, request.currency, days, d, day, items, fixes);
  }

  /** One that names no day gives an itinerary without days a first one. */
  lemma SchemaIssueWithoutDay(l: Ledger, issue: Issue, request: Request)
    requires IsSchemaIssue(issue) && issue.day == None
    ensures var after := Handled(l, issue, request);
            if l.days != [] then after == l
            else
              && |after.days| == 1 && IsPlaceholder(after.days[0], 1, request.currency)
              && after.changes == l.changes + [Change(DayAdded, Some(1), None)]
  {
    hide Lower, Contains, PlaceholderDay, IsPlaceholder;
    hide TransferAdded, MovedToOpeningHours, MovedAfterTransport, CostRiskReduced;
    PlaceholderIs(1, request.currency);
  }

  // ---------- the day count ----------

  ghost predicate AsksForDayCount(issue: Issue) {
    var id := Lower(issue.id);
    Contains(id, "day_count") || Contains(id, "missing_day") || Contains(id, "duplicate_day")
  }

  /** A day counts under its own number, or under its place from 1 when it has none. */
  ghost predicate CountsUnder(days: seq<Day>, d: nat, n: int) {
    d < |days| && if exists m :: IsNumbered(days[d], m) then IsNumbered(days[d], n) else n == d + 1
  }

  ghost predicate IsFirstUnder(days: seq<Day>, d: nat, n: int) {
    CountsUnder(days, d, n) && forall e: nat :: e < d ==> !CountsUnder(days, e, n)
  }

  /** The day under a number after normalising: the first that counted under it, numbered and titled, or else a
      placeholder. */
  ghost predicate IsNormal(days: seq<Day>, n: int, currency: string, day: Day) {
    || (exists d: nat :: IsFirstUnder(days, d, n) && IsTitled(days[d].(number := Some(n)), day, n))
    || (IsPlaceholder(day, n, currency) && forall d: nat :: !CountsUnder(days, d, n))
  }

  /** No day counts under the number, or the first that does is not numbered so. */
  ghost predicate IsOff(days: seq<Day>, n: int) {
    (forall d: nat :: !CountsUnder(days, d, n)) || exists d: nat :: IsFirstUnder(days, d, n) && days[d].number != Some(n)
  }

  lemma NumberAtCounts(days: seq<Day>, d: nat, n: int)
    requires d < |days|
    ensures NumberAt(days, d) == n <==> CountsUnder(days, d, n)
  {
    if DayNumber(days[d]).Some? {
      assert IsNumbered(days[d], DayNumber(days[d]).value);
    }
  }

  lemma FirstForIsFirstUnder(days: seq<Day>, n: int)
    ensures match FirstFor(days, n, |days|)
            case None => forall d: nat :: !CountsUnder(days, d, n)
            case Some(d) => d < |days| && IsFirstUnder(days, d, n)
                            && forall e: nat :: IsFirstUnder(days, e, n) ==> e == d
  {
    FirstForIsFirst(days, n, |days|);
    forall d: nat | d < |days|
      ensures NumberAt(days, d) == n <==> CountsUnder(days, d, n)
    {
      NumberAtCounts(days, d, n);
    }
    hide FirstFor, NumberAt;
  }

  lemma NormalDayIs(days: seq<Day>, n: int, currency: string)
    ensures IsNormal(days, n, currency, NormalDay(days, n, currency))
    ensures DayDiffers(days, n) <==> IsOff(days, n)
  {
    hide FirstFor, IsFirstUnder, CountsUnder, IsTitled, Titled, PlaceholderDay, IsPlaceholder;
    FirstForIsFirstUnder(days, n);
    PlaceholderIs(n, currency);
    var found := FirstFor(days, n, |days|);
    if found.Some? {
      TitledIs(days[found.value].(number := Some(n)), n);
      FirstCounts(days, found.value, n);
    }
  }

  lemma FirstCounts(days: seq<Day>, d: nat, n: int)
    requires IsFirstUnder(days, d, n)
    ensures CountsUnder(days, d, n)
  {
  }

  /** With a day-count issue and a known length, the days are one for each number, and one change is logged when a
      number was off or there were more or fewer days; otherwise nothing is normalised. */
  lemma NormalizedIs(request: Request)
    ensures var after, days, expected := Normalized(request), request.days, request.expectedDays;
            if expected > 0 && exists k :: 0 <= k < |request.issues| && AsksForDayCount(request.issues[k]) then
              && |after.days| == expected
              && (forall k :: 0 <= k < expected ==> IsNormal(days, k + 1, request.currency, after.days[k]))
              && after.changes == if |days| != expected || exists n :: 1 <= n <= expected && IsOff(days, n)
                                  then [Change(DayCountNormalized, None, None)] else []
            else after == Ledger(days, [])
  {
    hide Lower, Contains, IsNormal, IsOff, DayDiffers, NormalDay, NormalDays;
    var days, expected := request.days, request.expectedDays;
    assert forall k :: 0 <= k < |request.issues| ==> (IsDayCountIssue(request.issues[k]) <==> AsksForDayCount(request.issues[k]));
    hide IsDayCountIssue, AsksForDayCount;
    NormalDaysAreNumbered(days, expected, request.currency);
    forall n: nat | 1 <= n <= expected
      ensures IsNormal(days, n, request.currency, NormalDay(days, n, request.currency))
      ensures DayDiffers(days, n) <==> IsOff(days, n)
    {
      NormalDayIs(days, n, request.currency);
    }
  }

  // ---------- the whole run ----------

  /** Issues are handled in their order. */
  lemma {:induction false} HandledInOrder(l: Ledger, issue: Issue, rest: seq<Issue>, request: Request)
    ensures HandledAll(l, [], request) == l
    ensures HandledAll(l, [issue] + rest, request) == HandledAll(Handled(l, issue, request), rest, request)
  {
    hide Handled;
    var all := [issue] + rest;
    if rest == [] {
      assert all[..0] == [] && all[0] == issue;
    } else {
      var n := |rest| - 1;
      assert all[..n + 1] == [issue] + rest[..n] && all[n + 1] == rest[n];
      HandledInOrder(l, issue, rest[..n], request);
    }
  }

  /** Earlier first, a time that cannot be read after all others, and by name at the same time. */
  ghost predicate InKeyOrder(a: Item, b: Item) {
    var s, t := ToMinutes(a.time), ToMinutes(b.time);
    || (s.Some? && (t.None? || s.value < t.value))
    || (s == t && !Less(b.name, a.name))
  }

  ghost function SameTimeAndName(key: Item): Item -> bool {
    (item: Item) => ToMinutes(item.time) == ToMinutes(key.time) && item.name == key.name
  }

  lemma MinutesAreInDay(time: string)
    ensures ToMinutes(time).Some? ==> 0 <= ToMinutes(time).value < 1440
  {
  }

  lemma NoLaterIsKeyOrder(a: Item, b: Item)
    ensures NoLater(a, b) <==> InKeyOrder(a, b)
    ensures SameKey(a)(b) <==> SameTimeAndName(a)(b)
  {
    MinutesAreInDay(a.time);
    MinutesAreInDay(b.time);
    hide ToMinutes, Less;
  }

  /** A run ends by sorting every day's items, stably, and neither changes nor logs anything else after the issues. */
  lemma RunSortsDays(request: Request)
    ensures var handled, run := HandledAll(Normalized(request), request.issues, request), Repaired(request);
            && run.changes == handled.changes && |run.days| == |handled.days|
            && forall d :: 0 <= d < |run.days| ==>
                 && run.days[d].(items := []) == handled.days[d].(items := [])
                 && multiset(run.days[d].items) == multiset(handled.days[d].items)
                 && (forall i, j :: 0 <= i < j < |run.days[d].items| ==> InKeyOrder(run.days[d].items[i], run.days[d].items[j]))
                 && (forall key :: Filter(run.days[d].items, SameTimeAndName(key)) == Filter(handled.days[d].items, SameTimeAndName(key)))
  {
    hide HandledAll, Normalized, SortedDays, NoLater, SameKey, InKeyOrder, SameTimeAndName;
    var handled, run := HandledAll(Normalized(request), request.issues, request), Repaired(request);
    SortedDaysLength(handled.days);
    forall d | 0 <= d < |run.days|
      ensures run.days[d].(items := []) == handled.days[d].(items := [])
      ensures multiset(run.days[d].items) == multiset(handled.days[d].items)
      ensures forall i, j :: 0 <= i < j < |run.days[d].items| ==> InKeyOrder(run.days[d].items[i], run.days[d].items[j])
      ensures forall key :: Filter(run.days[d].items, SameTimeAndName(key)) == Filter(handled.days[d].items, SameTimeAndName(key))
    {
      SortPermutesDays(handled.days, d);
      forall i, j | 0 <= i < j < |run.days[d].items|
        ensures InKeyOrder(run.days[d].items[i], run.days[d].items[j])
      {
        NoLaterIsKeyOrder(run.days[d].items[i], run.days[d].items[j]);
      }
      forall key
        ensures Filter(run.days[d].items, SameTimeAndName(key)) == Filter(handled.days[d].items, SameTimeAndName(key))
      {
        FilterSameKey(run.days[d].items, key);
        FilterSameKey(handled.days[d].items, key);
      }
    }
  }

  lemma {:induction false} FilterSameKey(items: seq<Item>, key: Item)
    ensures Filter(items, SameKey(key)) == Filter(items, SameTimeAndName(key))
  {
    if items != [] {
      FilterSameKey(items[1..], key);
      NoLaterIsKeyOrder(key, items[0]);
      hide SameKey, SameTimeAndName;
    }
  }
}
