/** The log of `repair_itinerary`: what it records of the items it changes, and when a reader of the response can
    rebuild the repaired itinerary from it. */
module RepairLog {
  import opened Wrappers
  import opened Text
  import opened Sequences
  import opened Itinerary
  import opened Repair
  import opened RepairPlan

  // ---------- replaying the log ----------

  datatype DayView = DayView(number: Option<int>, items: seq<Compact>)

  function CompactAll(items: seq<Item>): seq<Compact> {
    seq(|items|, (i: int) requires 0 <= i < |items| => CompactOf(items[i]))
  }

  function View(days: seq<Day>): seq<DayView> {
    seq(|days|, (d: int) requires 0 <= d < |days| => DayView(DayNumber(days[d]), CompactAll(days[d].items)))
  }

  function FindDay(view: seq<DayView>, number: int, d: nat): Option<nat>
    decreases |view| - d
  {
    if d >= |view| then None
    else if view[d].number == Some(number) then Some(d)
    else FindDay(view, number, d + 1)
  }

  /** A recorded `before` against the item found: in full, or with the costs set aside. */
  predicate Matches(found: Compact, before: Compact, strict: bool) {
    if strict then found == before else found.(cost := NoCost) == before.(cost := NoCost)
  }

  /** What a reader of the response can do with one logged change: find the day by its number, check the
      recorded `before`, put the recorded `after`. */
  function ReplayOne(view: seq<DayView>, c: Change, strict: bool): Option<seq<DayView>> {
    if c.day.None? then None
    else
      match FindDay(view, c.day.value, 0)
      case None => None
      case Some(d) =>
        if d >= |view| then None
        else
          var items := view[d].items;
          if c.before.None? then
            if c.index == |items| then Some(view[d := view[d].(items := items + [c.after])]) else None
          else if c.index < |items| && Matches(items[c.index], c.before.value, strict) then
            Some(view[d := view[d].(items := items[c.index := c.after])])
          else None
  }

  function Replay(view: seq<DayView>, changes: seq<Change>, strict: bool): Option<seq<DayView>> {
    if changes == [] then Some(view)
    else
      match Replay(view, changes[..|changes| - 1], strict)
      case None => None
      case Some(v) => ReplayOne(v, changes[|changes| - 1], strict)
  }

  // ---------- the days a reader can find ----------

  /** The day has a number and is the first to have it: the only day a reader finds under that number. */
  predicate Reachable(days: seq<Day>, d: nat) {
    && d < |days| && DayNumber(days[d]).Some?
    && forall e :: 0 <= e < d ==> DayNumber(days[e]) != DayNumber(days[d])
  }

  ghost predicate SameNumbers(a: seq<Day>, b: seq<Day>) {
    |a| == |b| && forall d :: 0 <= d < |a| ==> DayNumber(a[d]) == DayNumber(b[d])
  }

  lemma ReachableStays(a: seq<Day>, b: seq<Day>, d: nat)
    requires SameNumbers(a, b)
    ensures Reachable(a, d) <==> Reachable(b, d)
  {
    hide DayNumber;
  }

  lemma NumbersStay(l: Ledger, kind: Kind, targets: seq<Address>, currency: string)
    ensures SameNumbers(l.days, ChangeAll(l, kind, targets, currency).days)
  {
    ChangeAllLength(l, kind, targets, currency);
    forall d | 0 <= d < |l.days|
      ensures DayNumber(ChangeAll(l, kind, targets, currency).days[d]) == DayNumber(l.days[d])
    {
      ChangeAllNumbers(l, kind, targets, currency, d);
    }
  }

  lemma ReachableAfter(l: Ledger, kind: Kind, targets: seq<Address>, currency: string, d: nat)
    ensures Reachable(ChangeAll(l, kind, targets, currency).days, d) <==> Reachable(l.days, d)
  {
    hide ChangeAll, Reachable, SameNumbers;
    NumbersStay(l, kind, targets, currency);
    ReachableStays(l.days, ChangeAll(l, kind, targets, currency).days, d);
  }

  lemma {:induction false} FindDayIsFirst(view: seq<DayView>, number: int, from: nat)
    ensures match FindDay(view, number, from)
            case None => true
            case Some(d) => from <= d < |view| && view[d].number == Some(number)
                            && forall e :: from <= e < d ==> view[e].number != Some(number)
    ensures FindDay(view, number, from) == None ==> forall e :: from <= e < |view| ==> view[e].number != Some(number)
    decreases |view| - from
  {
    if from < |view| {
      FindDayIsFirst(view, number, from + 1);
    }
  }

  lemma ReachableIsFound(days: seq<Day>, d: nat)
    requires Reachable(days, d)
    ensures FindDay(View(days), DayNumber(days[d]).value, 0) == Some(d)
  {
    FindDayIsFirst(View(days), DayNumber(days[d]).value, 0);
    assert View(days)[d].number == DayNumber(days[d]);
  }

  lemma ViewOfWithItems(days: seq<Day>, d: nat, items: seq<Item>)
    requires d < |days|
    ensures View(WithItems(days, d, items)) == View(days)[d := DayView(DayNumber(days[d]), CompactAll(items))]
  {
  }

  lemma CompactOfAppended(items: seq<Item>, item: Item)
    ensures CompactAll(items + [item]) == CompactAll(items) + [CompactOf(item)]
  {
  }

  lemma CompactOfUpdated(items: seq<Item>, i: nat, item: Item)
    requires i < |items|
    ensures CompactAll(items[i := item]) == CompactAll(items)[i := CompactOf(item)]
  {
  }

  // ---------- what a change records ----------

  lemma RecordKeepsRest(item: Item, kind: Kind, currency: string)
    ensures Recorded(item, kind, currency).(cost := NoCost) == CompactOf(item).(cost := NoCost)
    ensures Recorded(item, kind, currency) == CompactOf(item) <==>
            !SharesCost(item, kind) || CutCost(item, currency).cost == item.cost
  {
    hide CutCost, MoveEarlier, ReplaceItem;
  }

  lemma CutFixesCost(item: Item, currency: string)
    requires item.cost.Priced?
    ensures CutCost(item, currency).cost == item.cost <==>
            Amount(item).None? || (item.cost.labelled && item.cost.currency.Code? && Amount(item).value in {0.0, 1.0})
  {
    if Amount(item).Some? {
      ReductionFixesOnlyOneCent(Amount(item).value);
    }
    hide Reduced, MarkedName, AppendNote;
  }

  /** The record of a change holds the item as it was, except that a cut structured cost is recorded as cut.
      The two agree if and only if the cut changes nothing: on no amount, or on nothing or one cent in a
      labelled cost under a code in its stripped upper-case form. */
  lemma RecordIsFaithful(item: Item, kind: Kind, currency: string)
    ensures Recorded(item, kind, currency).(cost := NoCost) == CompactOf(item).(cost := NoCost)
    ensures Recorded(item, kind, currency) == CompactOf(item) <==>
            || kind != CostCut || !item.cost.Priced? || Amount(item).None?
            || (item.cost.labelled && item.cost.currency.Code? && Amount(item).value in {0.0, 1.0})
  {
    hide Recorded, CutCost;
    RecordKeepsRest(item, kind, currency);
    if item.cost.Priced? {
      CutFixesCost(item, currency);
    }
  }

  const LUNCH := Item("10:00", None, "food", "Lunch", "", Priced(Some(10000.0), Code("EUR"), true), None, None)
  const LUNCH_DAY := Day(Some(1), "Day 1", "", [LUNCH])

  /** A day with one item of 100 under EUR: the run that cuts it logs 70 as the cost before, which is not what
      a reader finds in the original. */
  lemma CutIsLoggedAsCut()
    ensures var log := Logged([LUNCH_DAY], CostCut, At(0, 0), "EUR");
            && log.before.Some? && log.before.value.cost == log.after.cost == Priced(Some(7000.0), Code("EUR"), true)
            && ReplayOne(View([LUNCH_DAY]), log, true) == None
            && ReplayOne(View([LUNCH_DAY]), log, false) == Some(View(Changed([LUNCH_DAY], CostCut, At(0, 0), "EUR")))
  {
    LunchIsCut();
    hide LUNCH, MarkedName, AppendNote, Reduced, View, ReplayOne, Reachable, Fixed, Recorded, Changed;
    ReplayOfLogged([LUNCH_DAY], CostCut, At(0, 0), "EUR", true);
    ReplayOfLogged([LUNCH_DAY], CostCut, At(0, 0), "EUR", false);
  }

  lemma LunchIsCut()
    ensures Reachable([LUNCH_DAY], 0) && LUNCH_DAY.items == [LUNCH]
    ensures Fixed(LUNCH, CostCut, "EUR").cost == Priced(Some(7000.0), Code("EUR"), true)
    ensures Recorded(LUNCH, CostCut, "EUR").cost == Fixed(LUNCH, CostCut, "EUR").cost
    ensures Recorded(LUNCH, CostCut, "EUR") != CompactOf(LUNCH)
  {
    SeventyOfHundred();
    hide MarkedName, AppendNote, Reduced;
  }

  /** The change is logged with the item as it was. */
  ghost predicate IsFaithful(days: seq<Day>, kind: Kind, at: Address, currency: string)
    requires Applies(days, kind, at)
  {
    kind == RestAdded || Recorded(days[at.d].items[at.i], kind, currency) == CompactOf(days[at.d].items[at.i])
  }

  /** A change on a reachable day is logged so that replaying its record with the costs set aside makes exactly
      that change; a reader who checks the costs too can follow it if and only if the record is faithful. */
  lemma ReplayOfLogged(days: seq<Day>, kind: Kind, at: Address, currency: string, strict: bool)
    requires Applies(days, kind, at) && Reachable(days, at.d)
    ensures ReplayOne(View(days), Logged(days, kind, at, currency), strict)
         == if strict && !IsFaithful(days, kind, at, currency) then None
            else Some(View(Changed(days, kind, at, currency)))
  {
    hide Reachable, FindDay, ReplayOne, View, Fixed, Recorded, RestBlock, DayNumber, CompactOf;
    var c := Logged(days, kind, at, currency);
    LoggedDayIsFound(days, kind, at, currency);
    if kind == RestAdded {
      ReplayOfAppended(days, at.d, c, RestBlock(currency), strict);
    } else {
      var item := days[at.d].items[at.i];
      RecordKeepsRest(item, kind, currency);
      ReplayOfUpdated(days, at, c, Fixed(item, kind, currency), strict);
    }
  }

  lemma LoggedDayIsFound(days: seq<Day>, kind: Kind, at: Address, currency: string)
    requires Applies(days, kind, at) && Reachable(days, at.d)
    ensures var c := Logged(days, kind, at, currency);
            c.day.Some? && FindDay(View(days), c.day.value, 0) == Some(at.d)
  {
    hide Fixed, Recorded, RestBlock, CompactOf;
    ReachableIsFound(days, at.d);
  }

  lemma ReplayOfAppended(days: seq<Day>, d: nat, c: Change, item: Item, strict: bool)
    requires d < |days| && c.day.Some? && FindDay(View(days), c.day.value, 0) == Some(d)
    requires c.before == None && c.index == |days[d].items| && c.after == CompactOf(item)
    ensures ReplayOne(View(days), c, strict) == Some(View(WithItems(days, d, days[d].items + [item])))
  {
    CompactOfAppended(days[d].items, item);
    ViewOfWithItems(days, d, days[d].items + [item]);
  }

  lemma ReplayOfUpdated(days: seq<Day>, at: Address, c: Change, item: Item, strict: bool)
    requires at.d < |days| && at.i < |days[at.d].items|
    requires c.day.Some? && FindDay(View(days), c.day.value, 0) == Some(at.d)
    requires c.before.Some? && c.index == at.i && c.after == CompactOf(item)
    ensures ReplayOne(View(days), c, strict)
         == if Matches(CompactOf(days[at.d].items[at.i]), c.before.value, strict)
            then Some(View(WithItems(days, at.d, days[at.d].items[at.i := item]))) else None
  {
    CompactOfUpdated(days[at.d].items, at.i, item);
    ViewOfWithItems(days, at.d, days[at.d].items[at.i := item]);
  }

  // ---------- the order of the log ----------

  /** No cut is made after a change of another kind. */
  ghost predicate CutsFirst(changes: seq<Change>) {
    forall j, k :: 0 <= j < k < |changes| && changes[k].kind == CostCut ==> changes[j].kind == CostCut
  }

  /** The log grows by changes of one kind. */
  ghost predicate GrowsBy(before: seq<Change>, after: seq<Change>, kind: Kind) {
    before <= after && forall k :: |before| <= k < |after| ==> after[k].kind == kind
  }

  lemma GrowsByOne(before: seq<Change>, after: seq<Change>, kind: Kind, c: Change)
    requires GrowsBy(before, after, kind) && c.kind == kind
    ensures GrowsBy(before, after + [c], kind)
  {
  }

  lemma NothingGrows(changes: seq<Change>, kind: Kind)
    ensures GrowsBy(changes, changes, kind)
  {
  }

  lemma {:induction false} ChangesOfKind(l: Ledger, kind: Kind, targets: seq<Address>, currency: string)
    ensures GrowsBy(l.changes, ChangeAll(l, kind, targets, currency).changes, kind)
  {
    hide GrowsBy, Changed, Recorded, Fixed, RestBlock, CompactOf, Applies;
    if targets == [] {
      NothingGrows(l.changes, kind);
    } else {
      var n := |targets| - 1;
      ChangesOfKind(l, kind, targets[..n], currency);
      var before := ChangeAll(l, kind, targets[..n], currency);
      if Applies(before.days, kind, targets[n]) {
        LoggedKind(before.days, kind, targets[n], currency);
        hide Logged;
        GrowsByOne(l.changes, before.changes, kind, Logged(before.days, kind, targets[n], currency));
      }
    }
  }

  lemma LoggedKind(days: seq<Day>, kind: Kind, at: Address, currency: string)
    requires Applies(days, kind, at)
    ensures Logged(days, kind, at, currency).kind == kind
  {
    hide Recorded, Fixed, RestBlock;
  }

  lemma OthersKeepCutsFirst(l: Ledger, kind: Kind, targets: seq<Address>, currency: string)
    requires CutsFirst(l.changes) && (kind != CostCut || l.changes == [])
    ensures CutsFirst(ChangeAll(l, kind, targets, currency).changes)
  {
    ChangesOfKind(l, kind, targets, currency);
    hide ChangeAll;
  }

  /** A run makes its cuts before all other changes. The targets of a round of cuts are distinct, so the cost
      entry a record shares with its item is not written again. */
  lemma CutsComeFirst(request: Request)
    ensures CutsFirst(Repaired(request).changes)
  {
    var p, currency := PlanOf(request), request.currency;
    RunIsPlanned(request);
    hide PlanOf, ChangeAll, CutsFirst, Repaired;
    NoCuts();
    var l1 := ChangeAll(Ledger(request.days, []), CostCut, p.cuts, currency);
    OthersKeepCutsFirst(Ledger(request.days, []), CostCut, p.cuts, currency);
    var l2 := ChangeAll(l1, MovedEarlier, p.moves, currency);
    OthersKeepCutsFirst(l1, MovedEarlier, p.moves, currency);
    OthersKeepCutsFirst(l2, RestAdded, p.rests, currency);
    OthersKeepCutsFirst(ChangeAll(l2, RestAdded, p.rests, currency), Replaced, p.replaced, currency);
  }

  lemma NoCuts()
    ensures CutsFirst([])
  {
  }

  // ---------- following the log ----------

  /** The log so far rebuilds the itinerary as it stands. */
  ghost predicate Follows(start: seq<DayView>, l: Ledger, strict: bool) {
    Replay(start, l.changes, strict) == Some(View(l.days))
  }

  ghost predicate Lost(start: seq<DayView>, l: Ledger) {
    Replay(start, l.changes, true) == None
  }

  lemma ReplayedAt(start: seq<DayView>, l: Ledger, kind: Kind, at: Address, currency: string, strict: bool)
    requires Applies(l.days, kind, at) && Reachable(l.days, at.d) && Follows(start, l, strict)
    ensures var after := ChangeAt(l, kind, at, currency);
            Replay(start, after.changes, strict)
              == if strict && !IsFaithful(l.days, kind, at, currency) then None else Some(View(after.days))
  {
    hide Reachable, Changed, Logged, View, IsFaithful;
    ReplayOfLogged(l.days, kind, at, currency, strict);
    var c := Logged(l.days, kind, at, currency);
    assert (l.changes + [c])[..|l.changes|] == l.changes;
  }

  /** Changes on reachable days can be followed; with the costs checked, those of any kind but a cut. */
  lemma {:induction false} FollowsAll(
      start: seq<DayView>, l: Ledger, kind: Kind, targets: seq<Address>, currency: string, strict: bool)
    requires Follows(start, l, strict) && (strict ==> kind != CostCut)
    requires forall t :: t in targets ==> Reachable(l.days, t.d)
    ensures Follows(start, ChangeAll(l, kind, targets, currency), strict)
  {
    if targets != [] {
      var n := |targets| - 1;
      assert targets[n] in targets && forall t :: t in targets[..n] ==> t in targets;
      hide Reachable, Fixed, Changed, Logged, Follows;
      FollowsAll(start, l, kind, targets[..n], currency, strict);
      var before := ChangeAll(l, kind, targets[..n], currency);
      ReachableAfter(l, kind, targets[..n], currency, targets[n].d);
      if Applies(before.days, kind, targets[n]) {
        FollowsOne(start, before, kind, targets[n], currency, strict);
      }
    }
  }

  lemma FollowsOne(start: seq<DayView>, l: Ledger, kind: Kind, at: Address, currency: string, strict: bool)
    requires Applies(l.days, kind, at) && Reachable(l.days, at.d) && Follows(start, l, strict)
    requires strict ==> kind != CostCut
    ensures Follows(start, ChangeAt(l, kind, at, currency), strict)
  {
    hide Reachable, ChangeAt, Replay, View, Fixed;
    ReplayedAt(start, l, kind, at, currency, strict);
  }

  lemma LostStaysLost(start: seq<DayView>, l: Ledger, kind: Kind, at: Address, currency: string)
    requires Lost(start, l)
    ensures Lost(start, ChangeAt(l, kind, at, currency))
  {
    hide Logged, Changed, Applies, ReplayOne;
    if Applies(l.days, kind, at) {
      var c := Logged(l.days, kind, at, currency);
      assert (l.changes + [c])[..|l.changes|] == l.changes;
    }
  }

  lemma {:induction false} LostAll(start: seq<DayView>, l: Ledger, kind: Kind, targets: seq<Address>, currency: string)
    requires Lost(start, l)
    ensures Lost(start, ChangeAll(l, kind, targets, currency))
  {
    if targets != [] {
      var n := |targets| - 1;
      LostAll(start, l, kind, targets[..n], currency);
      hide ChangeAt, Lost;
      LostStaysLost(start, ChangeAll(l, kind, targets[..n], currency), kind, targets[n], currency);
    }
  }

  /** A round of cuts can be followed with its costs if and only if every one is recorded as it was. */
  lemma {:induction false} FollowsCuts(start: seq<DayView>, l: Ledger, targets: seq<Address>, currency: string)
    requires Follows(start, l, true) && Distinct(targets)
    requires forall t :: t in targets ==> Applies(l.days, CostCut, t) && Reachable(l.days, t.d)
    ensures var after := ChangeAll(l, CostCut, targets, currency);
            if forall t :: t in targets ==> IsFaithful(l.days, CostCut, t, currency)
            then Follows(start, after, true) else Lost(start, after)
  {
    if targets != [] {
      var n := |targets| - 1;
      var at, front := targets[n], targets[..n];
      assert at in targets && at !in front && forall t :: t in targets <==> t == at || t in front by {
        assert targets == front + [at];
      }
      FollowsCuts(start, l, front, currency);
      ChangeAllOtherItem(l, CostCut, front, currency, at.d, at.i);
      StillApplies(l, CostCut, front, at, currency);
      var before := ChangeAll(l, CostCut, front, currency);
      ReachableAfter(l, CostCut, front, currency, at.d);
      hide ChangeAll, Reachable, IsFaithful, ChangeAt, Follows, Lost, Distinct;
      if forall t :: t in front ==> IsFaithful(l.days, CostCut, t, currency) {
        FollowsOneCut(start, l, before, at, currency);
      } else {
        LostStaysLost(start, before, CostCut, at, currency);
      }
    }
  }

  lemma FollowsOneCut(start: seq<DayView>, l: Ledger, before: Ledger, at: Address, currency: string)
    requires Follows(start, before, true) && Reachable(before.days, at.d)
    requires Applies(l.days, CostCut, at) && Applies(before.days, CostCut, at)
    requires before.days[at.d].items[at.i] == l.days[at.d].items[at.i]
    ensures var after := ChangeAt(before, CostCut, at, currency);
            if IsFaithful(l.days, CostCut, at, currency) then Follows(start, after, true) else Lost(start, after)
  {
    hide Reachable, Recorded, Replay, View, ChangeAt;
    ReplayedAt(start, before, CostCut, at, currency, true);
  }

  // ---------- what the log must not touch ----------

  /** A day no reader finds: it has no number, or an earlier day has the same. */
  ghost predicate Hidden(view: seq<DayView>, d: nat) {
    d < |view| && (view[d].number.None? || exists e :: 0 <= e < d && view[e].number == view[d].number)
  }

  ghost predicate HiddenStay(view: seq<DayView>, after: seq<DayView>) {
    && |after| == |view|
    && (forall d :: 0 <= d < |view| ==> after[d].number == view[d].number)
    && (forall d :: 0 <= d < |view| && Hidden(view, d) ==> after[d] == view[d])
  }

  lemma ReplayOneKeepsHidden(view: seq<DayView>, c: Change, strict: bool)
    requires ReplayOne(view, c, strict).Some?
    ensures HiddenStay(view, ReplayOne(view, c, strict).value)
  {
    FindDayIsFirst(view, c.day.value, 0);
    hide FindDay, Matches;
  }

  lemma HiddenStayTransitive(a: seq<DayView>, b: seq<DayView>, c: seq<DayView>)
    requires HiddenStay(a, b) && HiddenStay(b, c)
    ensures HiddenStay(a, c)
  {
    forall d | 0 <= d < |a| && Hidden(a, d)
      ensures c[d] == a[d]
    {
      if a[d].number.Some? {
        var e :| 0 <= e < d && a[e].number == a[d].number;
        assert b[e].number == b[d].number;
      }
      assert Hidden(b, d);
    }
  }

  lemma {:induction false} ReplayKeepsHidden(view: seq<DayView>, changes: seq<Change>, strict: bool)
    requires Replay(view, changes, strict).Some?
    ensures HiddenStay(view, Replay(view, changes, strict).value)
  {
    if changes != [] {
      var n := |changes| - 1;
      ReplayKeepsHidden(view, changes[..n], strict);
      hide HiddenStay, ReplayOne;
      var before := Replay(view, changes[..n], strict).value;
      ReplayOneKeepsHidden(before, changes[n], strict);
      HiddenStayTransitive(view, before, ReplayOne(before, changes[n], strict).value);
    }
  }

  /** A log that can be replayed has left every other day as it was, as far as the records show. */
  lemma UnreachedIsUnchanged(days: seq<Day>, changes: seq<Change>, final: seq<Day>, strict: bool, d: nat)
    requires Replay(View(days), changes, strict) == Some(View(final))
    requires d < |days| && !Reachable(days, d)
    ensures |final| == |days| && CompactAll(final[d].items) == CompactAll(days[d].items)
  {
    var view := View(days);
    ReplayKeepsHidden(view, changes, strict);
    hide Replay, CompactAll;
    assert view[d].number == DayNumber(days[d]);
    if DayNumber(days[d]).Some? {
      var e :| 0 <= e < d && DayNumber(days[e]) == DayNumber(days[d]);
      assert view[e].number == view[d].number;
    }
    assert Hidden(view, d);
    assert View(final)[d].items == view[d].items;
  }

  // ---------- when a run can be replayed ----------

  ghost predicate AllReachable(days: seq<Day>, p: Plan) {
    forall t :: t in p.cuts || t in p.moves || t in p.rests || t in p.replaced ==> Reachable(days, t.d)
  }

  /** One cent, written down as a cut writes it: the only amount above nothing that a cut leaves alone. */
  predicate IsOneCent(item: Item) {
    item.cost.Priced? && item.cost.labelled && item.cost.currency.Code? && item.cost.amount == Some(1.0)
  }

  /** A cut that may leave no trace in an item's record. */
  predicate IdleCut(days: seq<Day>, t: Address) {
    InRange(days, t) && IsOneCent(days[t.d].items[t.i])
  }

  /** A replacement that may leave no trace in an item's record. */
  predicate IdleReplacement(days: seq<Day>, t: Address) {
    InRange(days, t) && days[t.d].items[t.i].kind == "activity"
  }

  /** Whatever happens on a day no reader finds is a change of the idle kind. */
  ghost predicate OnlyIdleHidden(days: seq<Day>, p: Plan) {
    && (forall t :: t in p.moves || t in p.rests ==> Reachable(days, t.d))
    && (forall t :: t in p.cuts ==> Reachable(days, t.d) || IdleCut(days, t))
    && (forall t :: t in p.replaced ==> Reachable(days, t.d) || IdleReplacement(days, t))
  }

  ghost predicate NothingIdleHidden(days: seq<Day>, p: Plan) {
    && (forall t :: t in p.cuts ==> Reachable(days, t.d) || !IdleCut(days, t))
    && (forall t :: t in p.replaced ==> Reachable(days, t.d) || !IdleReplacement(days, t))
  }

  /** Every item the run cuts has a bare amount, or a cent that is written down already as a cut writes it. */
  ghost predicate CutsAreBare(days: seq<Day>, cuts: seq<Address>) {
    forall t :: t in cuts ==> InRange(days, t) && RecordsItself(days[t.d].items[t.i])
  }

  predicate RecordsItself(item: Item) {
    !item.cost.Priced? || IsOneCent(item)
  }

  lemma CostlyIsFaithful(days: seq<Day>, t: Address, currency: string)
    requires Applies(days, CostCut, t) && AmountAt(days, t) > 0.0
    ensures IsFaithful(days, CostCut, t, currency) <==> RecordsItself(days[t.d].items[t.i])
  {
    hide Fixed, Recorded;
    RecordIsFaithful(days[t.d].items[t.i], CostCut, currency);
  }

  lemma CostlyIsRewritten(days: seq<Day>, t: Address, currency: string)
    requires Applies(days, CostCut, t) && AmountAt(days, t) > 0.0
    ensures CutCost(days[t.d].items[t.i], currency).cost == days[t.d].items[t.i].cost ==> IsOneCent(days[t.d].items[t.i])
  {
    hide CutCost;
    var item := days[t.d].items[t.i];
    if item.cost.Priced? {
      CutFixesCost(item, currency);
    } else {
      CutIsPriced(item, currency);
    }
  }

  lemma CutIsPriced(item: Item, currency: string)
    requires Amount(item).Some?
    ensures CutCost(item, currency).cost.Priced?
  {
    hide MarkedName, AppendNote, Reduced;
  }

  lemma {:induction false} FirstRound(days: seq<Day>, p: Plan, currency: string, strict: bool)
    requires Fits(days, CostCut, p.cuts) && Distinct(p.cuts) && AllReachable(days, p)
    requires forall t :: t in p.cuts ==> AmountAt(days, t) > 0.0
    ensures var start, after := View(days), ChangeAll(Ledger(days, []), CostCut, p.cuts, currency);
            if strict ==> CutsAreBare(days, p.cuts) then Follows(start, after, strict) else Lost(start, after)
  {
    var l0 := Ledger(days, []);
    assert Follows(View(days), l0, strict);
    hide Follows, Lost, ChangeAll, Reachable, View, Distinct, RecordsItself;
    if strict {
      hide IsFaithful, AmountAt;
      forall t | t in p.cuts
        ensures Applies(days, CostCut, t)
        ensures IsFaithful(days, CostCut, t, currency) <==> RecordsItself(days[t.d].items[t.i])
      {
        CostlyIsFaithful(days, t, currency);
      }
      FollowsCuts(View(days), l0, p.cuts, currency);
    } else {
      FollowsAll(View(days), l0, CostCut, p.cuts, currency, false);
    }
  }

  lemma LaterRound(
      start: seq<DayView>, days: seq<Day>, l: Ledger, kind: Kind, targets: seq<Address>, currency: string, strict: bool, ok: bool)
    requires SameNumbers(days, l.days) && kind != CostCut && (!ok ==> strict)
    requires forall t :: t in targets ==> Reachable(days, t.d)
    requires if ok then Follows(start, l, strict) else Lost(start, l)
    ensures var after := ChangeAll(l, kind, targets, currency);
            && SameNumbers(days, after.days)
            && if ok then Follows(start, after, strict) else Lost(start, after)
  {
    NumbersStay(l, kind, targets, currency);
    forall t | t in targets
      ensures Reachable(l.days, t.d)
    {
      ReachableStays(days, l.days, t.d);
    }
    hide Follows, Lost, ChangeAll, Reachable;
    if ok {
      FollowsAll(start, l, kind, targets, currency, strict);
    } else {
      LostAll(start, l, kind, targets, currency);
    }
  }

  lemma PlanIsReplayed(request: Request, strict: bool)
    requires AllReachable(request.days, PlanOf(request))
    ensures var p := PlanOf(request);
            var after := Carried(request.days, p, request.currency);
            if strict ==> CutsAreBare(request.days, p.cuts) then Follows(View(request.days), after, strict)
            else Lost(View(request.days), after)
  {
    var days, p, currency := request.days, PlanOf(request), request.currency;
    var ok := strict ==> CutsAreBare(days, p.cuts);
    PlanFitsItsRequest(request);
    hide PlanOf, Follows, Lost, ChangeAll, CutsAreBare, Reachable, View, Fits, Distinct, AmountAt;
    FirstRound(days, p, currency, strict);
    var l0 := Ledger(days, []);
    var l1 := ChangeAll(l0, CostCut, p.cuts, currency);
    NumbersStay(l0, CostCut, p.cuts, currency);
    hide SameNumbers;
    LaterRound(View(days), days, l1, MovedEarlier, p.moves, currency, strict, ok);
    var l2 := ChangeAll(l1, MovedEarlier, p.moves, currency);
    LaterRound(View(days), days, l2, RestAdded, p.rests, currency, strict, ok);
    var l3 := ChangeAll(l2, RestAdded, p.rests, currency);
    LaterRound(View(days), days, l3, Replaced, p.replaced, currency, strict, ok);
  }

  lemma NotesKeepView(a: seq<Day>, b: seq<Day>)
    requires SameButNotes(a, b)
    ensures View(a) == View(b)
  {
    forall d | 0 <= d < |a|
      ensures DayNumber(a[d]) == DayNumber(b[d]) && CompactAll(a[d].items) == CompactAll(b[d].items)
    {
      assert a[d].(items := []) == b[d].(items := []);
      forall i | 0 <= i < |a[d].items|
        ensures CompactOf(a[d].items[i]) == CompactOf(b[d].items[i])
      {
        assert a[d].items[i].(note := "") == b[d].items[i].(note := "");
      }
    }
  }

  lemma LateByRecord(a: Item, b: Item)
    requires CompactOf(a) == CompactOf(b)
    ensures IsLate(a) == IsLate(b) && a.cost == b.cost && a.kind == b.kind
  {
    hide Strip;
  }

  lemma SameRecord(a: seq<Item>, b: seq<Item>, i: nat)
    requires CompactAll(a) == CompactAll(b) && i < |a|
    ensures |a| == |b| && CompactOf(a[i]) == CompactOf(b[i])
  {
    assert |CompactAll(a)| == |a| && |CompactAll(b)| == |b|;
    assert CompactAll(a)[i] == CompactAll(b)[i];
  }

  /** If the log can be replayed, a late move, a rest, or any change of record was made on a reachable day. */
  lemma ReplayedIsReachable(request: Request, log: seq<Change>, strict: bool)
    requires var after := Carried(request.days, PlanOf(request), request.currency).days;
             Replay(View(request.days), log, strict) == Some(View(after))
    ensures OnlyIdleHidden(request.days, PlanOf(request))
  {
    var days, p, currency := request.days, PlanOf(request), request.currency;
    var after := Carried(days, p, currency).days;
    PlanFitsItsRequest(request);
    hide PlanOf, Carried, View, Replay, Reachable, PlanFits, CutCost, IsLate, CompactAll, CompactOf, AmountAt, Fits, IsOneCent;
    forall t | t in p.moves
      ensures Reachable(days, t.d)
    {
      MoveStays(days, p, currency, t);
      if !Reachable(days, t.d) {
        UnreachedIsUnchanged(days, log, after, strict, t.d);
        SameRecord(days[t.d].items, after[t.d].items, t.i);
        LateByRecord(days[t.d].items[t.i], after[t.d].items[t.i]);
      }
    }
    forall t | t in p.rests
      ensures Reachable(days, t.d)
    {
      RestStays(days, p, currency, t);
      if !Reachable(days, t.d) {
        UnreachedIsUnchanged(days, log, after, strict, t.d);
        SameLength(days[t.d].items, after[t.d].items);
      }
    }
    forall t | t in p.cuts
      ensures Reachable(days, t.d) || IdleCut(days, t)
    {
      CutStays(days, p, currency, t);
      if !Reachable(days, t.d) {
        UnreachedIsUnchanged(days, log, after, strict, t.d);
        SameRecord(days[t.d].items, after[t.d].items, t.i);
        LateByRecord(days[t.d].items[t.i], after[t.d].items[t.i]);
        CostlyIsRewritten(days, t, currency);
      }
    }
    forall t | t in p.replaced
      ensures Reachable(days, t.d) || IdleReplacement(days, t)
    {
      ReplacementStays(days, p, currency, t);
      if !Reachable(days, t.d) {
        CarriedLength(days, p, currency);
        UnreachedIsUnchanged(days, log, after, strict, t.d);
        SameLength(days[t.d].items, after[t.d].items);
        SameRecord(days[t.d].items, after[t.d].items, t.i);
        LateByRecord(days[t.d].items[t.i], after[t.d].items[t.i]);
      }
    }
  }

  lemma SameLength(a: seq<Item>, b: seq<Item>)
    requires CompactAll(a) == CompactAll(b)
    ensures |a| == |b|
  {
    assert |CompactAll(a)| == |a| && |CompactAll(b)| == |b|;
  }

  /** Replaying the log of a run on its original, by day number, gives the repaired itinerary when every change was
      made on a day that is numbered and the first under its number; `strict` replaying, which checks the recorded
      costs too, gives it if moreover the cuts are recorded as they were, and only then. It never gives it when a
      late move or a rest was made on any other day, nor when a cut or a replacement that shows was. */
  lemma RunReplays(request: Request, strict: bool)
    ensures var days, p, run := request.days, PlanOf(request), Repaired(request);
            var replayed := Replay(View(days), run.changes, strict) == Some(View(run.days));
            && (AllReachable(days, p) ==> (replayed <==> (strict ==> CutsAreBare(days, p.cuts))))
            && (replayed ==> OnlyIdleHidden(days, p))
            && (NothingIdleHidden(days, p) ==> (replayed <==> AllReachable(days, p) && (strict ==> CutsAreBare(days, p.cuts))))
  {
    var days, p, run := request.days, PlanOf(request), Repaired(request);
    RunIsPlanned(request);
    var planned := Carried(days, p, request.currency);
    NotesKeepView(planned.days, run.days);
    hide PlanOf, Repaired, Carried, View, Replay, SameButNotes, Reachable, CutsAreBare, IdleCut, IdleReplacement;
    if AllReachable(days, p) {
      PlanIsReplayed(request, strict);
    }
    if Replay(View(days), run.changes, strict) == Some(View(run.days)) {
      ReplayedIsReachable(request, run.changes, strict);
    }
  }

  ghost predicate UniqueNumbers(days: seq<Day>) {
    && (forall d :: 0 <= d < |days| ==> DayNumber(days[d]).Some?)
    && (forall d, e :: 0 <= d < e < |days| ==> DayNumber(days[d]) != DayNumber(days[e]))
  }

  lemma TargetIsOnADay(request: Request, t: Address)
    requires var p := PlanOf(request); t in p.cuts || t in p.moves || t in p.rests || t in p.replaced
    ensures t.d < |request.days|
  {
    var days, p, currency := request.days, PlanOf(request), request.currency;
    PlanFitsItsRequest(request);
    hide PlanOf, Carried, PlanFits, CutCost, IsLate;
    CarriedLength(days, p, currency);
    if t in p.cuts {
      CutStays(days, p, currency, t);
    } else if t in p.moves {
      MoveStays(days, p, currency, t);
    } else if t in p.rests {
      RestStays(days, p, currency, t);
    } else {
      ReplacementStays(days, p, currency, t);
    }
  }

  /** When every day is numbered and no number occurs twice, replaying the log of any run, in any mode, gives the
      repaired itinerary. */
  lemma UniqueNumbersReplay(request: Request)
    requires UniqueNumbers(request.days)
    ensures Replay(View(request.days), Repaired(request).changes, false) == Some(View(Repaired(request).days))
  {
    var days, p := request.days, PlanOf(request);
    hide PlanOf, Repaired, Replay, View, DayNumber;
    forall t | t in p.cuts || t in p.moves || t in p.rests || t in p.replaced
      ensures Reachable(days, t.d)
    {
      TargetIsOnADay(request, t);
    }
    RunReplays(request, false);
  }

  // ---------- a log that leads astray ----------

  const NAP := Item("15:00", None, "rest", "Nap", "", NoCost, None, None)
  const TWIN_DAYS := [Day(Some(1), "Day 1", "", [NAP]), Day(Some(1), "Day 1 again", "", [])]
  const TWIN_TRIP := Request(TWIN_DAYS, "EUR", AddRestTime, [], [], [], None)

  lemma NapIsRest()
    ensures IsRest(NAP) && !IsLate(NAP)
  {
    hide Strip, Lower;
    RestBlockIsRest("");
  }

  lemma SomeMember(targets: seq<Address>)
    ensures targets == [] || targets[0] in targets
  {
  }

  lemma NothingToCut()
    ensures BudgetTargets(TWIN_DAYS) == []
  {
    BudgetTargetsRanked(TWIN_DAYS);
    hide BudgetTargets;
    SomeMember(BudgetTargets(TWIN_DAYS));
  }

  lemma TwinItem(t: Address)
    ensures InRange(TWIN_DAYS, t) ==> TWIN_DAYS[t.d].items[t.i] == NAP
  {
  }

  lemma NothingLate()
    ensures LateTargets(TWIN_DAYS) == []
  {
    NapIsRest();
    SelectMembers(TWIN_DAYS, IsLate, 0, 0);
    hide IsLate, Select;
    forall t: Address
      ensures t !in LateTargets(TWIN_DAYS)
    {
      TwinItem(t);
    }
    SomeMember(LateTargets(TWIN_DAYS));
  }

  lemma OneRestless()
    ensures RestTargets(TWIN_DAYS, 0) == [At(1, 0)]
  {
    NapIsRest();
    hide IsRest;
    assert HasRest(TWIN_DAYS[0]) && !HasRest(TWIN_DAYS[1]);
    assert RestTargets(TWIN_DAYS, 2) == [];
    assert RestTargets(TWIN_DAYS, 1) == [At(1, 0)];
  }

  lemma TwinTripPlan()
    ensures PlanOf(TWIN_TRIP).rests == [At(1, 0)] && !Reachable(TWIN_DAYS, 1)
  {
    hide BudgetTargets, LateTargets, RestTargets, LocateAll, Grown, Mentions, AffectedPairs;
    NothingToCut();
    NothingLate();
    OneRestless();
    assert DayNumber(TWIN_DAYS[0]) == DayNumber(TWIN_DAYS[1]);
    var p := RequestedPlan(TWIN_TRIP);
    assert p.cuts == [] && p.moves == [];
    assert WantsRest(TWIN_TRIP) && MaxChanges(TWIN_TRIP) == 10;
    assert p.rests == [At(1, 0)];
  }

  /** Two days under one number, of which the second needs a rest: the log says a rest was added on day 1, at a place
      the first day has taken. */
  lemma TwinDaysCannotBeReplayed()
    ensures PlanOf(TWIN_TRIP).rests == [At(1, 0)] && !Reachable(TWIN_DAYS, 1)
    ensures Replay(View(TWIN_DAYS), Repaired(TWIN_TRIP).changes, false) != Some(View(Repaired(TWIN_TRIP).days))
  {
    TwinTripPlan();
    hide PlanOf, Repaired, Replay, View;
    RunReplays(TWIN_TRIP, false);
    assert At(1, 0) in PlanOf(TWIN_TRIP).rests;
  }
}
