/** What a run of `repair_itinerary` leaves at every place of the itinerary, field by field. */
module RepairEffects {
  import opened Wrappers
  import opened Sequences
  import opened Itinerary
  import opened Repair
  import opened RepairPlan
  import opened RepairTargets

  // ---------- single changes ----------

  /** A whole number of cents nearest to 70% of the price, the even one of two. */
  ghost predicate IsSeventyPercent(cents: real, price: real) {
    && cents == cents.Floor as real && price * 0.7 - 0.5 <= cents <= price * 0.7 + 0.5
    && (cents - price * 0.7 == 0.5 || price * 0.7 - cents == 0.5 ==> cents.Floor % 2 == 0)
  }

  ghost predicate IsUnder(cost: Cost, code: string) {
    cost.Priced? && (cost.currency == Code(code) || cost.currency == Untidy(code))
  }

  /** 70% of the price, under the item's own code or, where it has none, under `currency`. */
  ghost predicate IsCutCost(before: Item, cost: Cost, currency: string) {
    && cost.Priced? && cost.labelled && cost.amount.Some? && IsSeventyPercent(cost.amount.value, Price(before))
    && cost.currency.Code?
    && (IsUnder(before.cost, cost.currency.code)
        || (cost.currency.code == currency && forall code :: !IsUnder(before.cost, code)))
  }

  ghost predicate WasCut(before: Item, after: Item, currency: string) {
    && after == before.(cost := after.cost, name := MarkedName(before.name, "lower-cost"),
                        note := AppendNote(before.note, "AI repair lowered this estimated cost for policy review."))
    && IsCutCost(before, after.cost, currency)
  }

  ghost predicate WasMoved(before: Item, after: Item) {
    && after == before.(time := "19:00", endTime := after.endTime,
                        note := AppendNote(before.note, "AI repair moved this earlier to reduce late-schedule risk."))
    && after.endTime == if before.endTime == None then None else Some("20:30")
  }

  ghost predicate WasReplaced(before: Item, after: Item) {
    after == before.(kind := "activity", name := MarkedName(before.name, "allowed alternative"),
                     note := AppendNote(before.note, "AI repair replaced a potentially disallowed item for review."))
  }

  ghost predicate WasReplacedTimes(before: Item, after: Item, n: nat)
    decreases n
  {
    if n == 0 then after == before
    else exists between :: WasReplacedTimes(before, between, n - 1) && WasReplaced(between, after)
  }

  ghost predicate IsRestBlock(item: Item, currency: string) {
    && item.time == "15:00" && item.endTime == None && item.kind == "rest" && item.name == "AI repair rest break"
    && item.note == "Added reviewable downtime to reduce itinerary density risk."
    && item.cost == Priced(Some(0.0), Code(currency), true) && item.leg == None && item.duration == None
  }

  // ---------- a place of the itinerary ----------

  /** What stands at the place before any item is changed: the original item, or the rest block added there. */
  ghost predicate StartsAs(days: seq<Day>, p: Plan, currency: string, t: Address, item: Item) {
    && t.d < |days|
    && if t.i < |days[t.d].items| then item == days[t.d].items[t.i]
       else t.i == |days[t.d].items| && t in p.rests && IsRestBlock(item, currency)
  }

  /** The item at the place is cut, moved and replaced as the plan says, in this order; a place that several
      issues point at is replaced once for each of them. */
  ghost predicate EndsAs(days: seq<Day>, p: Plan, currency: string, t: Address, item: Item) {
    exists start, cut, moved :: Stages(days, p, currency, t, start, cut, moved, item)
  }

  ghost predicate Stages(
      days: seq<Day>, p: Plan, currency: string, t: Address, start: Item, cut: Item, moved: Item, item: Item)
  {
    && StartsAs(days, p, currency, t, start)
    && (if t in p.cuts then WasCut(start, cut, currency) else cut == start)
    && (if t in p.moves then WasMoved(cut, moved) else moved == cut)
    && WasReplacedTimes(moved, item, multiset(p.replaced)[t])
  }

  lemma ReducedIsSeventyPercent(price: real)
    requires price > 0.0
    ensures IsSeventyPercent(Reduced(price), price)
  {
    RoundHalfEvenIsNearest(price * 0.7);
  }

  lemma CutCostIsCut(item: Item, currency: string)
    requires Price(item) > 0.0
    ensures Amount(item) == Some(Price(item))
    ensures IsCutCost(item, Priced(Some(Reduced(Price(item))), Code(WrittenCode(item, currency)), true), currency)
  {
    ReducedIsSeventyPercent(Price(item));
    hide Reduced, IsSeventyPercent;
    var code := WrittenCode(item, currency);
    assert IsUnder(item.cost, code) || (code == currency && forall other :: !IsUnder(item.cost, other));
  }

  lemma CutIsCut(item: Item, currency: string)
    requires Price(item) > 0.0
    ensures WasCut(item, CutCost(item, currency), currency)
  {
    CutCostIsCut(item, currency);
    hide MarkedName, AppendNote, Reduced, IsCutCost, Price;
  }

  lemma OneMore(front: seq<Address>, at: Address, t: Address)
    ensures multiset(front + [at])[t] == multiset(front)[t] + (if at == t then 1 else 0)
  {
  }

  lemma ReplacedOnceMore(before: Item, between: Item, after: Item, n: nat)
    requires WasReplacedTimes(before, between, n)
    ensures WasReplaced(between, after) ==> WasReplacedTimes(before, after, n + 1)
  {
    hide WasReplaced;
  }

  lemma ReplacedNever(item: Item)
    ensures WasReplacedTimes(item, item, 0)
  {
  }

  lemma {:induction false} ReplacedAgain(l: Ledger, targets: seq<Address>, currency: string, t: Address)
    requires Fits(l.days, Replaced, targets) && InRange(l.days, t)
    ensures var days := ChangeAll(l, Replaced, targets, currency).days;
            InRange(days, t) && WasReplacedTimes(l.days[t.d].items[t.i], days[t.d].items[t.i], multiset(targets)[t])
  {
    hide Fits, ChangeAt, SameButFor, WasReplaced, WasReplacedTimes;
    if targets == [] {
      ReplacedNever(l.days[t.d].items[t.i]);
    } else {
      var n := |targets| - 1;
      var front, at := targets[..n], targets[n];
      assert targets == front + [at];
      FitsFront(l.days, Replaced, targets);
      ReplacedAgain(l, front, currency, t);
      StillApplies(l, Replaced, front, at, currency);
      var before := ChangeAll(l, Replaced, front, currency);
      ReplaceEffect(before, at, currency, t);
      OneMore(front, at, t);
      var after := ChangeAt(before, Replaced, at, currency).days;
      ReplacedOnceMore(l.days[t.d].items[t.i], before.days[t.d].items[t.i], after[t.d].items[t.i], multiset(front)[t]);
    }
  }

  lemma ReplaceEffect(l: Ledger, at: Address, currency: string, t: Address)
    requires Applies(l.days, Replaced, at) && InRange(l.days, t)
    ensures var days := ChangeAt(l, Replaced, at, currency).days;
            && InRange(days, t)
            && if at == t then WasReplaced(l.days[t.d].items[t.i], days[t.d].items[t.i])
               else days[t.d].items[t.i] == l.days[t.d].items[t.i]
  {
    hide MarkedName, AppendNote, Logged;
  }

  lemma {:induction false} RestStands(l: Ledger, rests: seq<Address>, currency: string, t: Address)
    requires Fits(l.days, RestAdded, rests) && t in rests
    ensures var days := ChangeAll(l, RestAdded, rests, currency).days;
            InRange(days, t) && days[t.d].items[t.i] == RestBlock(currency)
  {
    var n := |rests| - 1;
    var front, at := rests[..n], rests[n];
    assert rests == front + [at];
    FitsFront(l.days, RestAdded, rests);
    hide Fits, ChangeAt, SameButFor, Applies, RestBlock;
    StillApplies(l, RestAdded, front, at, currency);
    var before := ChangeAll(l, RestAdded, front, currency);
    if at == t {
      RestAppended(before, at, currency);
    } else {
      RestStands(l, front, currency, t);
      ChangeAtKeepsItem(before, at, currency, t);
    }
  }

  lemma RestAppended(l: Ledger, at: Address, currency: string)
    requires Applies(l.days, RestAdded, at)
    ensures var days := ChangeAt(l, RestAdded, at, currency).days;
            InRange(days, at) && days[at.d].items[at.i] == RestBlock(currency)
  {
    hide RestBlock, Logged;
  }

  lemma ChangeAtKeepsItem(l: Ledger, at: Address, currency: string, t: Address)
    requires InRange(l.days, t)
    ensures var days := ChangeAt(l, RestAdded, at, currency).days;
            InRange(days, t) && days[t.d].items[t.i] == l.days[t.d].items[t.i]
  {
    ChangeAtEffect(l, RestAdded, at, currency);
    hide ChangeAt;
  }

  lemma Untouched(l: Ledger, kind: Kind, targets: seq<Address>, currency: string, t: Address)
    requires InRange(l.days, t) && (kind == RestAdded || t !in targets)
    ensures var days := ChangeAll(l, kind, targets, currency).days;
            InRange(days, t) && days[t.d].items[t.i] == l.days[t.d].items[t.i]
  {
    ChangeAllOtherItem(l, kind, targets, currency, t.d, t.i);
  }

  // ---------- round by round ----------

  lemma CutsAt(days: seq<Day>, cuts: seq<Address>, currency: string, t: Address)
    requires Fits(days, CostCut, cuts) && Distinct(cuts) && InRange(days, t)
    requires forall u :: u in cuts ==> AmountAt(days, u) > 0.0
    ensures var after := ChangeAll(Ledger(days, []), CostCut, cuts, currency).days;
            && InRange(after, t)
            && if t in cuts then WasCut(days[t.d].items[t.i], after[t.d].items[t.i], currency)
               else after[t.d].items[t.i] == days[t.d].items[t.i]
  {
    hide Fits, Distinct, ChangeAll, WasCut, CutCost;
    if t in cuts {
      TargetIsFixed(Ledger(days, []), CostCut, cuts, currency, t);
      CutIsCut(days[t.d].items[t.i], currency);
    } else {
      Untouched(Ledger(days, []), CostCut, cuts, currency, t);
    }
  }

  lemma MoveIsMove(item: Item)
    ensures WasMoved(item, MoveEarlier(item))
  {
  }

  lemma MovesAt(l: Ledger, moves: seq<Address>, currency: string, t: Address)
    requires Fits(l.days, MovedEarlier, moves) && Distinct(moves) && InRange(l.days, t)
    ensures var after := ChangeAll(l, MovedEarlier, moves, currency).days;
            && InRange(after, t)
            && if t in moves then WasMoved(l.days[t.d].items[t.i], after[t.d].items[t.i])
               else after[t.d].items[t.i] == l.days[t.d].items[t.i]
  {
    hide Fits, Distinct, ChangeAll, WasMoved, MoveEarlier;
    if t in moves {
      TargetIsFixed(l, MovedEarlier, moves, currency, t);
      MoveIsMove(l.days[t.d].items[t.i]);
    } else {
      Untouched(l, MovedEarlier, moves, currency, t);
    }
  }

  lemma RestIsRestBlock(currency: string)
    ensures IsRestBlock(RestBlock(currency), currency)
  {
  }

  /** The sizes after all rounds: one more on the days with a planned rest. */
  lemma CarriedSizes(days: seq<Day>, p: Plan, currency: string, d: nat)
    requires PlanFits(days, p, currency) && d < |days|
    ensures var after := Carried(days, p, currency).days;
            && |after| == |days| && after[d].(items := []) == days[d].(items := [])
            && |after[d].items| == SizeWith(days, p.rests, d)
  {
    hide Fits, Distinct, ChangeAll, SizeWith, IsLate;
    var l0 := Ledger(days, []);
    var l1 := ChangeAll(l0, CostCut, p.cuts, currency);
    var l2 := ChangeAll(l1, MovedEarlier, p.moves, currency);
    var l3 := ChangeAll(l2, RestAdded, p.rests, currency);
    CarriedLength(days, p, currency);
    ChangeAllLength(l0, CostCut, p.cuts, currency);
    ChangeAllLength(l1, MovedEarlier, p.moves, currency);
    ChangeAllLength(l2, RestAdded, p.rests, currency);
    ChangeAllNumbers(l0, CostCut, p.cuts, currency, d);
    ChangeAllNumbers(l1, MovedEarlier, p.moves, currency, d);
    ChangeAllNumbers(l2, RestAdded, p.rests, currency, d);
    ChangeAllNumbers(l3, Replaced, p.replaced, currency, d);
    ChangeAllSizes(l0, CostCut, p.cuts, currency, d);
    ChangeAllSizes(l1, MovedEarlier, p.moves, currency, d);
    ChangeAllSizes(l3, Replaced, p.replaced, currency, d);
    RestsGrow(l2, p.rests, currency, d);
    SameSizeWith(days, l2.days, p.rests, d);
  }

  lemma SameSizeWith(a: seq<Day>, b: seq<Day>, rests: seq<Address>, d: nat)
    requires d < |a| && d < |b| && |a[d].items| == |b[d].items|
    ensures SizeWith(a, rests, d) == SizeWith(b, rests, d)
  {
  }

  /** After the rest blocks: an original item as cut and moved, or a rest block. */
  lemma AfterRests(days: seq<Day>, p: Plan, currency: string, t: Address) returns (start: Item, cut: Item, moved: Item)
    requires PlanFits(days, p, currency) && forall u :: u in p.cuts ==> AmountAt(days, u) > 0.0
    requires t.d < |days| && t.i < SizeWith(days, p.rests, t.d)
    ensures StartsAs(days, p, currency, t, start)
    ensures if t in p.cuts then WasCut(start, cut, currency) else cut == start
    ensures if t in p.moves then WasMoved(cut, moved) else moved == cut
    ensures var l1 := ChangeAll(Ledger(days, []), CostCut, p.cuts, currency);
            var l2 := ChangeAll(l1, MovedEarlier, p.moves, currency);
            var after := ChangeAll(l2, RestAdded, p.rests, currency).days;
            InRange(after, t) && after[t.d].items[t.i] == moved
  {
    hide Distinct, ChangeAll, WasCut, WasMoved, IsLate, AmountAt, Fits;
    var l1 := ChangeAll(Ledger(days, []), CostCut, p.cuts, currency);
    var l2 := ChangeAll(l1, MovedEarlier, p.moves, currency);
    if t.i < |days[t.d].items| {
      CutsAt(days, p.cuts, currency, t);
      MovesAt(l1, p.moves, currency, t);
      Untouched(l2, RestAdded, p.rests, currency, t);
      start, cut, moved := days[t.d].items[t.i], l1.days[t.d].items[t.i], l2.days[t.d].items[t.i];
    } else {
      ChangeAllSizes(Ledger(days, []), CostCut, p.cuts, currency, t.d);
      ChangeAllSizes(l1, MovedEarlier, p.moves, currency, t.d);
      RestPlanned(days, l2.days, p, t);
      RestStands(l2, p.rests, currency, t);
      RestIsRestBlock(currency);
      InRangeOnly(days, p.cuts, t);
      start, cut, moved := RestBlock(currency), RestBlock(currency), RestBlock(currency);
    }
  }

  lemma InRangeOnly(days: seq<Day>, cuts: seq<Address>, t: Address)
    requires Fits(days, CostCut, cuts) && !InRange(days, t)
    ensures t !in cuts
  {
  }

  lemma RestPlanned(days: seq<Day>, before: seq<Day>, p: Plan, t: Address)
    requires t.d < |days| && |days[t.d].items| <= t.i < SizeWith(days, p.rests, t.d)
    requires |before| == |days| && |before[t.d].items| == |days[t.d].items| && Fits(before, RestAdded, p.rests)
    ensures t in p.rests
  {
    var u :| u in p.rests && u.d == t.d;
    assert Applies(before, RestAdded, u);
    assert u == t;
  }

  lemma CarriedItems(days: seq<Day>, p: Plan, currency: string, t: Address)
    requires PlanFits(days, p, currency) && forall u :: u in p.cuts ==> AmountAt(days, u) > 0.0
    requires t.d < |days| && t.i < SizeWith(days, p.rests, t.d)
    ensures var after := Carried(days, p, currency).days;
            InRange(after, t) && EndsAs(days, p, currency, t, after[t.d].items[t.i])
  {
    var start, cut, moved := AfterRests(days, p, currency, t);
    hide Fits, Distinct, ChangeAll, WasCut, WasMoved, IsLate, AmountAt, WasReplacedTimes, StartsAs;
    var l1 := ChangeAll(Ledger(days, []), CostCut, p.cuts, currency);
    var l2 := ChangeAll(l1, MovedEarlier, p.moves, currency);
    var l3 := ChangeAll(l2, RestAdded, p.rests, currency);
    ReplacedAgain(l3, p.replaced, currency, t);
    var after := ChangeAll(l3, Replaced, p.replaced, currency).days;
    assert Stages(days, p, currency, t, start, cut, moved, after[t.d].items[t.i]);
  }

  // ---------- the walking note ----------

  /** The first item of the first day that has any. */
  ghost predicate IsFirstItem(days: seq<Day>, t: Address) {
    t.d < |days| && t.i == 0 && days[t.d].items != [] && forall e :: 0 <= e < t.d ==> days[e].items == []
  }

  ghost predicate WasNoted(before: Item, after: Item) {
    after == before.(note := AppendNote(before.note, "AI repair reviewed walking risk; verify routes."))
  }

  lemma {:induction false} NoteIsOnFirst(days: seq<Day>, t: Address)
    requires InRange(days, t)
    ensures var noted := WarningNote(days);
            && InRange(noted, t)
            && if IsFirstItem(days, t) then WasNoted(days[t.d].items[t.i], noted[t.d].items[t.i])
               else noted[t.d].items[t.i] == days[t.d].items[t.i]
  {
    hide AppendNote;
    if days[0].items == [] {
      var rest, u := days[1..], At(t.d - 1, t.i);
      assert rest[u.d] == days[t.d];
      NoteIsOnFirst(rest, u);
      assert forall e :: 0 <= e < u.d ==> rest[e] == days[e + 1];
      assert IsFirstItem(rest, u) ==> IsFirstItem(days, t) by {
        assert forall e :: 0 < e < t.d ==> days[e] == rest[e - 1];
      }
    }
  }

  /** Where a run leaves the walking note: on the first item there is when the operations asked for are done. */
  ghost predicate IsNoted(request: Request, asked: Plan, t: Address) {
    && request.mode == ReduceWalking && t.d < |request.days| && t.i == 0
    && SizeWith(request.days, asked.rests, t.d) > 0
    && forall e :: 0 <= e < t.d ==> SizeWith(request.days, asked.rests, e) == 0
  }

  // ---------- the whole run ----------

  ghost predicate RunEndsAs(request: Request, asked: Plan, t: Address, item: Item) {
    exists plain ::
      && EndsAs(request.days, PlanOf(request), request.currency, t, plain)
      && if IsNoted(request, asked, t) then WasNoted(plain, item) else item == plain
  }

  /** The walking note after the planned changes. */
  lemma NotedAfterPlan(request: Request, t: Address)
    requires request.mode == ReduceWalking && Size(PlanOf(request)) > 0 && RequestedPlan(request) == PlanOf(request)
    requires t.d < |request.days| && t.i < SizeWith(request.days, PlanOf(request).rests, t.d)
    requires Repaired(request).days == WarningNote(Carried(request.days, PlanOf(request), request.currency).days)
    ensures InRange(Repaired(request).days, t)
    ensures RunEndsAs(request, PlanOf(request), t, Repaired(request).days[t.d].items[t.i])
  {
    var days, p, currency := request.days, PlanOf(request), request.currency;
    PlanFitsItsRequest(request);
    hide PlanOf, Repaired, Carried, PlanFits, EndsAs, SizeWith, WarningNote, RequestedPlan, AmountAt, WasNoted;
    CarriedItems(days, p, currency, t);
    var after := Carried(days, p, currency).days;
    NoteIsOnFirst(after, t);
    CarriedLength(days, p, currency);
    forall d | 0 <= d < |days|
      ensures |after[d].items| == SizeWith(days, p.rests, d)
    {
      CarriedSizes(days, p, currency, d);
    }
  }

  lemma NotedWhenAsked(request: Request)
    requires request.mode == ReduceWalking && Size(RequestedPlan(request)) > 0
    ensures PlanOf(request) == RequestedPlan(request)
    ensures Repaired(request).days == WarningNote(Carried(request.days, PlanOf(request), request.currency).days)
  {
    RequestedIsPlanned(request);
    hide Requested, RequestedPlan, WarningNote, Carried;
  }

  /** With nothing asked for, the note is made first and the rest blocks are added to the noted itinerary. */
  lemma NotedBeforeRests(request: Request)
    requires request.mode == ReduceWalking && Size(RequestedPlan(request)) == 0
    ensures var noted := Ledger(WarningNote(request.days), []);
            && RequestedPlan(request) == NO_CHANGE
            && PlanOf(request) == NO_CHANGE.(rests := RestsPlanned(request))
            && Fits(noted.days, RestAdded, RestsPlanned(request))
            && Repaired(request) == ChangeAll(noted, RestAdded, RestsPlanned(request), request.currency)
  {
    var days := request.days;
    var noted := Ledger(WarningNote(days), []);
    RequestedIsPlanned(request);
    WarningNoteKeeps(days);
    SameShapeAndRests(days, noted.days);
    RestTargetsFit(noted.days, 0);
    NothingCarried(days, request.currency);
    hide Requested, RequestedPlan, WarningNote, Carried, RestTargets, SameButNotes, SameShape, ChangeAll, Fits;
    assert RequestedPlan(request) == NO_CHANGE;
    TakeFits(noted.days, RestAdded, RestTargets(days, 0), MaxChanges(request));
    SomeIsPlanned(noted, RestAdded, RestTargets(noted.days, 0), MaxChanges(request), request.currency);
  }

  lemma NotedRests(request: Request, t: Address)
    requires request.mode == ReduceWalking && Size(RequestedPlan(request)) == 0
    requires t.d < |request.days| && t.i < SizeWith(request.days, PlanOf(request).rests, t.d)
    ensures InRange(Repaired(request).days, t)
    ensures RunEndsAs(request, RequestedPlan(request), t, Repaired(request).days[t.d].items[t.i])
  {
    var days, rests, currency := request.days, RestsPlanned(request), request.currency;
    hide PlanOf, Repaired, WarningNote, RequestedPlan, ChangeAll, Fits, RestsPlanned, EndsAs, WasNoted;
    hide SizeWith, SameButNotes;
    NotedBeforeRests(request);
    WarningNoteKeeps(days);
    NothingExtra(days);
    var plain := NotedThenRested(days, WarningNote(days), rests, currency, t);
  }

  /** A place when rest blocks are added to the noted itinerary. */
  lemma NotedThenRested(days: seq<Day>, noted: seq<Day>, rests: seq<Address>, currency: string, t: Address)
    returns (plain: Item)
    requires noted == WarningNote(days) && SameButNotes(days, noted) && Fits(noted, RestAdded, rests)
    requires t.d < |days| && t.i < SizeWith(days, rests, t.d)
    ensures EndsAs(days, NO_CHANGE.(rests := rests), currency, t, plain)
    ensures var after := ChangeAll(Ledger(noted, []), RestAdded, rests, currency).days;
            && InRange(after, t)
            && if IsFirstItem(days, t) then WasNoted(plain, after[t.d].items[t.i]) else after[t.d].items[t.i] == plain
  {
    hide WarningNote, WasNoted, ChangeAll, IsRestBlock, Fits, RestBlock, EndsAs, SizeWith;
    if InRange(days, t) {
      NoteIsOnFirst(days, t);
      Untouched(Ledger(noted, []), RestAdded, rests, currency, t);
      plain := days[t.d].items[t.i];
    } else {
      RestPlanned(days, noted, NO_CHANGE.(rests := rests), t);
      RestIsLast(noted, rests, t);
      RestStands(Ledger(noted, []), rests, currency, t);
      RestIsRestBlock(currency);
      plain := RestBlock(currency);
    }
    StaysAsItIs(days, NO_CHANGE.(rests := rests), currency, t, plain);
  }

  lemma RestIsLast(days: seq<Day>, rests: seq<Address>, t: Address)
    requires Fits(days, RestAdded, rests) && t in rests
    ensures t.d < |days| && t.i == |days[t.d].items|
  {
    assert Applies(days, RestAdded, t);
  }

  lemma NothingExtra(days: seq<Day>)
    ensures forall d :: 0 <= d < |days| ==> SizeWith(days, [], d) == |days[d].items|
  {
  }

  lemma StaysAsItIs(days: seq<Day>, p: Plan, currency: string, t: Address, item: Item)
    requires p.cuts == [] && p.moves == [] && p.replaced == [] && StartsAs(days, p, currency, t, item)
    ensures EndsAs(days, p, currency, t, item)
  {
    ReplacedNever(item);
    hide StartsAs, WasReplacedTimes;
    assert multiset(p.replaced)[t] == 0;
    assert Stages(days, p, currency, t, item, item, item, item);
  }

  lemma RunItem(request: Request, t: Address)
    requires t.d < |request.days| && t.i < SizeWith(request.days, PlanOf(request).rests, t.d)
    ensures InRange(Repaired(request).days, t)
    ensures RunEndsAs(request, RequestedPlan(request), t, Repaired(request).days[t.d].items[t.i])
  {
    hide PlanOf, Repaired, Carried, PlanFits, EndsAs, SizeWith, RequestedPlan, AmountAt, SameButNotes, WarningNote;
    if request.mode != ReduceWalking {
      RunIsPlanned(request);
      PlanFitsItsRequest(request);
      CarriedItems(request.days, PlanOf(request), request.currency, t);
    } else if Size(RequestedPlan(request)) > 0 {
      NotedWhenAsked(request);
      NotedAfterPlan(request, t);
    } else {
      NotedRests(request, t);
    }
  }

  /** Every run, place by place: the days keep their headers and gain one item where a rest is planned; every
      item is what the plan makes of the one that stood there, with the walking note on the first one. */
  lemma RunEndsAsPlanned(request: Request)
    ensures var days, p, run := request.days, PlanOf(request), Repaired(request).days;
            && |run| == |days|
            && (forall d :: 0 <= d < |days| ==>
                  run[d].(items := []) == days[d].(items := []) && |run[d].items| == SizeWith(days, p.rests, d))
            && (forall t :: InRange(run, t) ==> RunEndsAs(request, RequestedPlan(request), t, run[t.d].items[t.i]))
  {
    var days, p, run := request.days, PlanOf(request), Repaired(request).days;
    RunIsPlanned(request);
    PlanFitsItsRequest(request);
    hide PlanOf, Repaired, Carried, PlanFits, SizeWith, RequestedPlan, AmountAt, RunEndsAs;
    forall d | 0 <= d < |days|
      ensures |run| == |days|
      ensures run[d].(items := []) == days[d].(items := []) && |run[d].items| == SizeWith(days, p.rests, d)
    {
      CarriedSizes(days, p, request.currency, d);
    }
    CarriedLength(days, p, request.currency);
    forall t | InRange(run, t)
      ensures RunEndsAs(request, RequestedPlan(request), t, run[t.d].items[t.i])
    {
      RunItem(request, t);
    }
  }

  // ---------- disallowed items ----------

  /** The change replaces the item that the pair names. */
  ghost predicate Replaces(c: Change, pair: (int, int)) {
    c.kind == Replaced && c.day == Some(pair.0) && c.index == pair.1
  }

  lemma ReplacementIsLogged(changes: seq<Change>, days: seq<Day>, p: Plan, k: nat)
    requires IsLogOfPlan(changes, days, p) && k < |changes| && changes[k].kind == Replaced
    ensures var first := |p.cuts| + |p.moves| + |p.rests|;
            k >= first && IsLogOf(changes[k], Replaced, days, p.replaced[k - first])
  {
    hide IsLogOf;
    var i, j := |p.cuts|, |p.cuts| + |p.moves|;
    if k < i {
      KindAt(changes, 0, CostCut, days, p.cuts, k);
    } else if k < j {
      KindAt(changes, i, MovedEarlier, days, p.moves, k - i);
    } else if k < j + |p.rests| {
      KindAt(changes, j, RestAdded, days, p.rests, k - j);
    } else {
      assert changes[j + |p.rests| + (k - (j + |p.rests|))] == changes[k];
    }
  }

  lemma KindAt(changes: seq<Change>, from: nat, kind: Kind, days: seq<Day>, targets: seq<Address>, k: nat)
    requires Logs(changes, from, kind, days, targets) && k < |targets|
    ensures changes[from + k].kind == kind
  {
    assert IsLogOf(changes[from + k], kind, days, targets[k]);
  }

  lemma NamedIsReplaced(days: seq<Day>, rests: seq<Address>, pair: (int, int), t: Address, c: Change)
    requires Names(days, rests, pair, t) && IsLogOf(c, Replaced, days, t)
    ensures Replaces(c, pair)
  {
    assert c.day == Some(pair.0) <==> IsNumbered(days[t.d], pair.0);
  }

  /** The replacements in the log are those of the pairs picked, in this order. */
  lemma PickedAreLogged(
      request: Request, changes: seq<Change>, p: Plan, pairs: seq<(int, int)>, at: seq<nat>, room: nat, k: nat)
    requires Picks(request.days, p.rests, pairs, at, p.replaced, room) && IsLogOfPlan(changes, request.days, p)
    requires k < |changes| && changes[k].kind == Replaced
    ensures var first := |p.cuts| + |p.moves| + |p.rests|;
            && first <= k < first + |at| && at[k - first] < |pairs| && Replaces(changes[k], pairs[at[k - first]])
  {
    hide IsLogOf, Names, Logs;
    var first := |p.cuts| + |p.moves| + |p.rests|;
    ReplacementIsLogged(changes, request.days, p, k);
    NamedIsReplaced(request.days, p.rests, pairs[at[k - first]], p.replaced[k - first], changes[k]);
  }

  /** The replacements of a run, if any, are picked from the pairs by the operation asked for. */
  lemma ReplacedAreTaken(request: Request, limit: nat) returns (room: nat)
    requires limit == MaxChanges(request)
    ensures PlanOf(request).replaced != [] ==> PlanOf(request) == RequestedPlan(request)
    ensures Asks(request, ReplaceDisallowedItems, "disallowed") || PlanOf(request).replaced != [] ==>
              var asked := RequestedPlan(request);
              TakesAffected(request, asked.rests, asked.replaced, room)
              && limit == |asked.cuts| + |asked.moves| + |asked.rests| + room
  {
    var asked := PlanFollowsRequest(request, limit);
    hide PlanOf, RequestedPlan, TakesFirst, TakesAffected, IssuesSay;
    room := limit - |asked.cuts| - |asked.moves| - |asked.rests|;
  }

  /** Replacements are made at the issues' own pairs and nowhere else. */
  lemma OnlyIssuesAreReplaced(request: Request, k: nat)
    requires request.affected != [] && k < |Repaired(request).changes| && Repaired(request).changes[k].kind == Replaced
    ensures exists pair :: pair in request.affected && Replaces(Repaired(request).changes[k], pair)
  {
    var p, changes := PlanOf(request), Repaired(request).changes;
    var room := ReplacedAreTaken(request, MaxChanges(request));
    RunIsLogged(request);
    hide PlanOf, Repaired, RequestedPlan, IsLogOfPlan, Picks;
    ReplacementIsLogged(changes, request.days, p, k);
    var pairs, at :| AreAffected(request, pairs) && Picks(request.days, p.rests, pairs, at, p.replaced, room);
    PickedAreLogged(request, changes, p, pairs, at, room, k);
    assert pairs == request.affected;
  }

  /** When the operation is asked for and the limit is not reached, every pair that names an item has its
      replacement in the log. */
  lemma EveryIssueIsReplaced(request: Request, limit: nat, k: nat, t: Address)
    requires request.maxChangedItems == None || request.maxChangedItems == Some(0) ==> limit == 10
    requires request.maxChangedItems == None || request.maxChangedItems == Some(0) || request.maxChangedItems == Some(limit)
    requires Asks(request, ReplaceDisallowedItems, "disallowed") && |Repaired(request).changes| < limit
    requires k < |request.affected| && Names(request.days, RequestedPlan(request).rests, request.affected[k], t)
    ensures exists c :: c in Repaired(request).changes && Replaces(c, request.affected[k])
  {
    var asked, changes := RequestedPlan(request), Repaired(request).changes;
    var room := ReplacedAreTaken(request, limit);
    var _ := PlanFollowsRequest(request, limit);
    RunIsLogged(request);
    hide PlanOf, Repaired, RequestedPlan, Aims, IsLogOf, Names, IssuesSay, IsLogOfPlan, MaxChanges, Asks, Picks;
    var pairs, at :| AreAffected(request, pairs) && Picks(request.days, asked.rests, pairs, at, asked.replaced, room);
    LoggedSize(changes, request.days, PlanOf(request));
    PlanKeepsRoom(request);
    var j := PickedUnlessFull(request.days, asked.rests, pairs, at, asked.replaced, room, k, t);
    var c := LoggedReplacement(changes, request.days, asked, j);
    NamedIsReplaced(request.days, asked.rests, pairs[k], asked.replaced[j], c);
  }

  /** The requested plan is carried out whole. */
  lemma PlanKeepsRoom(request: Request)
    ensures Size(RequestedPlan(request)) > 0 ==> PlanOf(request) == RequestedPlan(request)
  {
    hide RequestedPlan;
  }

  lemma LoggedSize(changes: seq<Change>, days: seq<Day>, p: Plan)
    requires IsLogOfPlan(changes, days, p)
    ensures |changes| == Size(p)
  {
    hide Logs;
  }

  lemma LoggedReplacement(changes: seq<Change>, days: seq<Day>, p: Plan, j: nat) returns (c: Change)
    requires IsLogOfPlan(changes, days, p) && j < |p.replaced|
    ensures c in changes && IsLogOf(c, Replaced, days, p.replaced[j])
  {
    hide IsLogOf;
    c := changes[|p.cuts| + |p.moves| + |p.rests| + j];
  }

  lemma PickedUnlessFull(
      days: seq<Day>, rests: seq<Address>, pairs: seq<(int, int)>, at: seq<nat>, targets: seq<Address>, room: nat,
      k: nat, t: Address) returns (j: nat)
    requires Picks(days, rests, pairs, at, targets, room) && k < |pairs| && Names(days, rests, pairs[k], t)
    requires |targets| < room
    ensures j < |targets| && Names(days, rests, pairs[k], targets[j])
  {
    hide Names;
    j :| 0 <= j < |at| && at[j] == k;
  }
}
