/** What `repair_itinerary` does to the schedule: how far one run gets, and when repeated runs get to the end. */
module RepairSchedule {
  import opened Wrappers
  import opened Text
  import opened Sequences
  import opened Itinerary
  import opened Repair
  import opened RepairPlan

  // ---------- defects ----------

  /** Late items, and one more when the day has no rest. */
  function DayDefects(day: Day): nat {
    Count(day.items, IsLate) + (if HasRest(day) then 0 else 1)
  }

  function Defects(days: seq<Day>): nat {
    Total(days, DayDefects)
  }

  lemma MoveRemovesOneDefect(days: seq<Day>, at: Address, currency: string)
    requires Applies(days, MovedEarlier, at) && IsLate(days[at.d].items[at.i])
    ensures Defects(Changed(days, MovedEarlier, at, currency)) == Defects(days) - 1
  {
    hide IsLate, IsRest, MoveEarlier, Count, Total;
    var day := days[at.d];
    var item := MoveEarlier(day.items[at.i]);
    MovedItemIsNotLate(day.items[at.i]);
    CountUpdate(day.items, at.i, item, IsLate);
    CountUpdate(day.items, at.i, item, IsRest);
    TotalUpdate(days, at.d, Changed(days, MovedEarlier, at, currency)[at.d], DayDefects);
  }

  lemma RestRemovesOneDefect(days: seq<Day>, at: Address, currency: string)
    requires Applies(days, RestAdded, at) && !HasRest(days[at.d])
    ensures Defects(Changed(days, RestAdded, at, currency)) == Defects(days) - 1
  {
    hide IsLate, IsRest, RestBlock, Total;
    var day := days[at.d];
    RestBlockIsRest(currency);
    CountConcat(day.items, [RestBlock(currency)], IsLate);
    CountConcat(day.items, [RestBlock(currency)], IsRest);
    TotalUpdate(days, at.d, Changed(days, RestAdded, at, currency)[at.d], DayDefects);
  }

  ghost predicate Defective(days: seq<Day>, kind: Kind, at: Address) {
    && (kind == MovedEarlier || kind == RestAdded) && Applies(days, kind, at)
    && if kind == MovedEarlier then IsLate(days[at.d].items[at.i]) else !HasRest(days[at.d])
  }

  /** Different rest targets lie in different days, different late targets at different items. */
  ghost predicate Apart(kind: Kind, targets: seq<Address>) {
    if kind == RestAdded then forall i, j :: 0 <= i < j < |targets| ==> targets[i].d != targets[j].d
    else Distinct(targets)
  }

  lemma ChangeRemovesOneDefect(l: Ledger, kind: Kind, at: Address, currency: string)
    requires Defective(l.days, kind, at)
    ensures var after := ChangeAt(l, kind, at, currency);
            Defects(after.days) == Defects(l.days) - 1 && |after.changes| == |l.changes| + 1
  {
    hide Defects, Changed, Logged;
    if kind == MovedEarlier {
      MoveRemovesOneDefect(l.days, at, currency);
    } else {
      RestRemovesOneDefect(l.days, at, currency);
    }
  }

  ghost predicate ApartFrom(kind: Kind, others: seq<Address>, at: Address) {
    if kind == RestAdded then forall t :: t in others ==> t.d != at.d else at !in others
  }

  lemma LastIsApart(kind: Kind, targets: seq<Address>)
    requires Apart(kind, targets) && targets != []
    ensures var n := |targets| - 1;
            && Apart(kind, targets[..n]) && ApartFrom(kind, targets[..n], targets[n])
            && targets[n] in targets && forall t :: t in targets[..n] ==> t in targets
  {
  }

  /** Changing other targets leaves a defect where it is. */
  lemma DefectStays(l: Ledger, kind: Kind, others: seq<Address>, at: Address, currency: string)
    requires Defective(l.days, kind, at)
    requires ApartFrom(kind, others, at)
    ensures Defective(ChangeAll(l, kind, others, currency).days, kind, at)
  {
    if kind == MovedEarlier {
      ChangeAllOtherItem(l, kind, others, currency, at.d, at.i);
    } else {
      ChangeAllOtherDay(l, kind, others, currency, at.d);
    }
    hide ChangeAll, IsLate, HasRest;
  }

  lemma {:induction false} EachChangeRemovesOneDefect(l: Ledger, kind: Kind, targets: seq<Address>, currency: string)
    requires forall t :: t in targets ==> Defective(l.days, kind, t)
    requires Apart(kind, targets)
    ensures var after := ChangeAll(l, kind, targets, currency);
            && Defects(after.days) == Defects(l.days) - |targets|
            && |after.changes| == |l.changes| + |targets|
  {
    if targets != [] {
      hide Defects, ChangeAt, Defective, Apart, ApartFrom;
      var n := |targets| - 1;
      var at, front := targets[n], targets[..n];
      LastIsApart(kind, targets);
      EachChangeRemovesOneDefect(l, kind, front, currency);
      DefectStays(l, kind, front, at, currency);
      ChangeRemovesOneDefect(ChangeAll(l, kind, front, currency), kind, at, currency);
    }
  }

  lemma {:induction false} RestTargetsAreApart(days: seq<Day>, d: nat)
    ensures Apart(RestAdded, RestTargets(days, d))
    ensures forall t :: t in RestTargets(days, d) ==> d <= t.d && Defective(days, RestAdded, t)
    decreases |days| - d
  {
    if d < |days| {
      RestTargetsAreApart(days, d + 1);
      var rest := RestTargets(days, d + 1);
      if !HasRest(days[d]) {
        var all := [At(d, |days[d].items|)] + rest;
        assert forall j :: 0 < j < |all| ==> all[j] == rest[j - 1] && all[j].d > d;
      }
    }
  }

  lemma {:induction false} CountNone(items: seq<Item>, p: Item -> bool)
    requires forall i :: 0 <= i < |items| ==> !p(items[i])
    ensures Count(items, p) == 0
  {
    if items != [] {
      CountNone(items[1..], p);
    }
  }

  lemma {:induction false} NoRestTargets(days: seq<Day>, d: nat)
    requires RestTargets(days, d) == []
    ensures forall e :: d <= e < |days| ==> HasRest(days[e])
    decreases |days| - d
  {
    if d < |days| {
      NoRestTargets(days, d + 1);
    }
  }

  lemma {:induction false} NoDefects(days: seq<Day>)
    requires forall d :: 0 <= d < |days| ==> DayDefects(days[d]) == 0
    ensures Defects(days) == 0
  {
    if days != [] {
      NoDefects(days[1..]);
    }
  }

  lemma NoLateItem(days: seq<Day>, d: nat)
    requires LateTargets(days) == [] && d < |days|
    ensures forall i :: 0 <= i < |days[d].items| ==> !IsLate(days[d].items[i])
  {
    SelectMembers(days, IsLate, 0, 0);
    hide IsLate;
    forall i | 0 <= i < |days[d].items|
      ensures !IsLate(days[d].items[i])
    {
      assert At(d, i) !in LateTargets(days);
    }
  }

  lemma NoTargetsNoDefects(days: seq<Day>)
    requires LateTargets(days) == [] && RestTargets(days, 0) == []
    ensures Defects(days) == 0
  {
    NoRestTargets(days, 0);
    hide IsLate, HasRest, LateTargets;
    forall d | 0 <= d < |days|
      ensures DayDefects(days[d]) == 0
    {
      NoLateItem(days, d);
      CountNone(days[d].items, IsLate);
    }
    NoDefects(days);
  }

  // ---------- one run ----------

  lemma CutsKeepDefects(days: seq<Day>, cuts: seq<Address>, currency: string)
    ensures Defects(ChangeAll(Ledger(days, []), CostCut, cuts, currency).days) == Defects(days)
  {
    var after := ChangeAll(Ledger(days, []), CostCut, cuts, currency).days;
    CutsKeepSchedule(currency);
    hide IsLate, IsRest, ChangeAll, Fixed;
    ChangesKeep(Ledger(days, []), CostCut, cuts, currency, IsLate);
    ChangesKeep(Ledger(days, []), CostCut, cuts, currency, IsRest);
    ShapeOfChanges(Ledger(days, []), CostCut, cuts, currency);
    SameDefects(days, after);
  }

  lemma {:induction false} SameDefects(a: seq<Day>, b: seq<Day>)
    requires SameShape(a, b) && Keeps(a, b, IsLate) && Keeps(a, b, IsRest)
    ensures Defects(a) == Defects(b)
  {
    hide IsLate, IsRest;
    if a != [] {
      CountOfKept(a[0].items, b[0].items, IsLate);
      CountOfKept(a[0].items, b[0].items, IsRest);
      SameDefects(a[1..], b[1..]);
    }
  }

  lemma NotesKeepDefects(a: seq<Day>, b: seq<Day>)
    requires SameButNotes(a, b)
    ensures Defects(a) == Defects(b)
  {
    SameShapeAndRests(a, b);
    forall d, i | 0 <= d < |a| && 0 <= i < |a[d].items|
      ensures IsRest(b[d].items[i]) == IsRest(a[d].items[i]) && IsLate(b[d].items[i]) == IsLate(a[d].items[i])
    {
      assert a[d].items[i].(note := "") == b[d].items[i].(note := "");
    }
    hide IsRest, IsLate;
    SameDefects(a, b);
  }

  /** A plan without replacements removes one defect for each of its moves and rests. */
  lemma PlanProgress(request: Request, p: Plan)
    requires ComesFrom(request, p) && p.replaced == []
    ensures Defects(Carried(request.days, p, request.currency).days) + |p.moves| + |p.rests| == Defects(request.days)
  {
    var days, currency := request.days, request.currency;
    var l1 := ChangeAll(Ledger(days, []), CostCut, p.cuts, currency);
    AfterCuts(days, p.cuts, currency);
    CutsKeepDefects(days, p.cuts, currency);
    hide ChangeAll, LateTargets, RestTargets, BudgetTargets, Defects, Keeps, SameShape, LocateAll, Grown, Defective;
    MovesAreDefects(l1.days, p.moves);
    EachChangeRemovesOneDefect(l1, MovedEarlier, p.moves, currency);
    var l2 := ChangeAll(l1, MovedEarlier, p.moves, currency);
    AfterMoves(days, l1, p.moves, currency);
    RestsAreDefects(l2.days, p.rests);
    EachChangeRemovesOneDefect(l2, RestAdded, p.rests, currency);
    NoTargetsNoChange(ChangeAll(l2, RestAdded, p.rests, currency), Replaced, currency);
  }

  lemma MovesAreDefects(days: seq<Day>, moves: seq<Address>)
    requires moves <= LateTargets(days)
    ensures Apart(MovedEarlier, moves) && forall t :: t in moves ==> Defective(days, MovedEarlier, t)
  {
    MovesFit(days, moves);
    hide LateTargets, IsLate;
  }

  lemma RestsAreDefects(days: seq<Day>, rests: seq<Address>)
    requires rests <= RestTargets(days, 0)
    ensures Apart(RestAdded, rests) && forall t :: t in rests ==> Defective(days, RestAdded, t)
  {
    RestTargetsAreApart(days, 0);
    hide RestTargets, Defective;
    assert rests == RestTargets(days, 0)[..|rests|];
    assert forall t :: t in rests ==> t in RestTargets(days, 0);
  }

  /** Of a run that replaces nothing, in any mode: late items plus days without rest fall by exactly its moves and
      rests. A run that logs nothing has no day without rest, and no late item if it looks for them. */
  lemma ScheduleRunProgress(request: Request)
    requires PlanOf(request).replaced == []
    ensures var p := PlanOf(request);
            && Defects(Repaired(request).days) + |p.moves| + |p.rests| == Defects(request.days)
            && |Repaired(request).changes| == |p.cuts| + |p.moves| + |p.rests|
    ensures Repaired(request).changes == [] && WantsLate(request) ==> Defects(request.days) == 0
  {
    var p := PlanOf(request);
    RunIsPlanned(request);
    PlanComesFrom(request);
    hide PlanOf, Repaired, Carried, SameButNotes, ComesFrom, WantsLate, WantsReplacement, Defects;
    PlanProgress(request, p);
    NotesKeepDefects(Carried(request.days, p, request.currency).days, Repaired(request).days);
    if Repaired(request).changes == [] && WantsLate(request) {
      EmptyPlan(request);
      NoTargetsNoDefects(request.days);
    }
  }

  lemma NothingReplaced(request: Request)
    requires !WantsReplacement(request)
    ensures PlanOf(request).replaced == []
  {
    hide BudgetTargets, LateTargets, RestTargets, LocateAll, Grown, Mentions, AffectedPairs;
  }

  lemma EmptyPlan(request: Request)
    requires Size(PlanOf(request)) == 0
    ensures RestTargets(request.days, 0) == [] && (WantsLate(request) ==> LateTargets(request.days) == [])
  {
    hide BudgetTargets, LateTargets, RestTargets, LocateAll, Grown, Mentions, AffectedPairs;
    var p := RequestedPlan(request);
    assert p == NO_CHANGE;
  }

  // ---------- runs in a row ----------

  /** The itinerary after `n` runs in a row, each on the result of the one before. */
  function AfterRuns(request: Request, n: nat): seq<Day> {
    if n == 0 then request.days
    else Repaired(request.(days := AfterRuns(request, n - 1))).days
  }

  function NextRequest(request: Request): Request {
    request.(days := Repaired(request).days)
  }

  /** An amount no number of cuts brings to nothing. */
  predicate IsLasting(item: Item) {
    match Amount(item) case None => false case Some(cents) => cents * 7.0 > 5.0
  }

  /** The items that take a change of every run that cuts costs, for ever. */
  function Lasting(request: Request): nat {
    if WantsBudget(request) then |Select(request.days, IsLasting, 0, 0)| else 0
  }

  function Payable(request: Request): nat {
    if WantsBudget(request) then |BudgetTargets(request.days)| else 0
  }

  /** The runs in question look for late items, replace nothing, and when nothing requested is found add rests. */
  predicate IsScheduleRun(request: Request) {
    WantsLate(request) && !WantsReplacement(request) && request.mode != SelectedIssues && request.mode != ReduceWalking
  }

  /** Either there is nothing to do; or the lasting costs leave room for a change, and rests are asked for, or come
      when nothing else is left, or are not needed. */
  predicate Finishes(request: Request) {
    || Defects(request.days) == 0
    || (Lasting(request) < MaxChanges(request)
        && (WantsRest(request) || Lasting(request) == 0 || RestTargets(request.days, 0) == []))
  }

  /** As many runs as this always suffice. */
  function Work(request: Request): nat {
    Payable(request) + Defects(request.days)
  }

  lemma CutsKeepLasting(currency: string)
    ensures forall item :: IsLasting(Fixed(item, CostCut, currency)) == IsLasting(item)
    ensures forall item :: IsLasting(Fixed(item, MovedEarlier, currency)) == IsLasting(item)
    ensures forall item :: IsLasting(Fixed(item, RestAdded, currency)) == IsLasting(item)
  {
    forall item: Item
      ensures IsLasting(Fixed(item, CostCut, currency)) == IsLasting(item)
    {
      CutKeepsLasting(item, currency);
    }
    hide CutCost, AppendNote;
  }

  lemma CutKeepsLasting(item: Item, currency: string)
    ensures IsLasting(CutCost(item, currency)) == IsLasting(item)
  {
    hide MarkedName, AppendNote;
    if Amount(item).Some? {
      ReductionVanishes(Amount(item).value);
    }
  }

  /** A rest block costs nothing; it does not count among the costs, lasting or not. */
  lemma {:induction false} RestsAreFree(l: Ledger, targets: seq<Address>, currency: string)
    ensures var days := ChangeAll(l, RestAdded, targets, currency).days;
            && |days| == |l.days|
            && forall d, i :: 0 <= d < |l.days| && |l.days[d].items| <= i < |days[d].items| ==>
                 days[d].items[i] == RestBlock(currency)
  {
    if targets != [] {
      var n := |targets| - 1;
      RestsAreFree(l, targets[..n], currency);
      hide ChangeAll, RestBlock, Logged;
      RestIsAppended(ChangeAll(l, RestAdded, targets[..n], currency), targets[n], currency);
    }
  }

  lemma RestIsAppended(l: Ledger, at: Address, currency: string)
    ensures var days := ChangeAt(l, RestAdded, at, currency).days;
            && |days| == |l.days|
            && forall d, i :: 0 <= d < |l.days| && 0 <= i < |days[d].items| ==>
                 days[d].items[i] == if i < |l.days[d].items| then l.days[d].items[i] else RestBlock(currency)
  {
    hide RestBlock, Logged;
  }

  /** What a schedule run leaves in an item's place as far as costs go; behind the old items only rest blocks. */
  lemma CostsAfterRun(request: Request, p: Plan, t: Address)
    requires PlanFits(request.days, p, request.currency) && p.replaced == []
    ensures var days, after := request.days, Carried(request.days, p, request.currency).days;
            InRange(after, t) ==>
              if InRange(days, t) then
                CostOf(after[t.d].items[t.i]) == CostOf(
                  if t in p.cuts then CutCost(days[t.d].items[t.i], request.currency) else days[t.d].items[t.i])
              else after[t.d].items[t.i] == RestBlock(request.currency)
  {
    var days, currency := request.days, request.currency;
    var l1 := ChangeAll(Ledger(days, []), CostCut, p.cuts, currency);
    var l2 := ChangeAll(l1, MovedEarlier, p.moves, currency);
    hide ChangeAll, CutCost, Fits, Distinct, RestBlock, IsLate;
    NoTargetsNoChange(ChangeAll(l2, RestAdded, p.rests, currency), Replaced, currency);
    CarriedLength(days, p, currency);
    if t in p.cuts {
      CutStays(days, p, currency, t);
    } else if InRange(days, t) {
      UncutStays(days, p, currency, t);
    } else {
      ShapeOfChanges(Ledger(days, []), CostCut, p.cuts, currency);
      ShapeOfChanges(l1, MovedEarlier, p.moves, currency);
      RestsAreFree(l2, p.rests, currency);
    }
  }

  lemma UncutStays(days: seq<Day>, p: Plan, currency: string, t: Address)
    requires InRange(days, t) && t !in p.cuts
    ensures var after := Carried(days, p, currency).days;
            InRange(after, t) && CostOf(after[t.d].items[t.i]) == CostOf(days[t.d].items[t.i])
  {
    LaterChangesKeep(currency);
    ChangeAllOtherItem(Ledger(days, []), CostCut, p.cuts, currency, t.d, t.i);
    hide ChangeAll, MoveEarlier, ReplaceItem, Fixed, Keeps, IsLate;
    var l1 := ChangeAll(Ledger(days, []), CostCut, p.cuts, currency);
    var l2 := ChangeAll(l1, MovedEarlier, p.moves, currency);
    var l3 := ChangeAll(l2, RestAdded, p.rests, currency);
    ChangesKeep(l1, MovedEarlier, p.moves, currency, CostOf);
    ChangesKeep(l2, RestAdded, p.rests, currency, CostOf);
    ChangesKeep(l3, Replaced, p.replaced, currency, CostOf);
    SeenAt(l1.days, l2.days, CostOf, t);
    SeenAt(l2.days, l3.days, CostOf, t);
    SeenAt(l3.days, ChangeAll(l3, Replaced, p.replaced, currency).days, CostOf, t);
  }

  lemma SameWants(request: Request)
    ensures var next := NextRequest(request);
            && (WantsBudget(next) <==> WantsBudget(request)) && (WantsLate(next) <==> WantsLate(request))
            && (WantsRest(next) <==> WantsRest(request)) && (WantsReplacement(next) <==> WantsReplacement(request))
            && MaxChanges(next) == MaxChanges(request) && next.currency == request.currency && next.mode == request.mode
  {
    assert IssueWords(NextRequest(request)) == IssueWords(request);
    hide Repaired;
  }

  /** A schedule run is its plan, with no replacement and no note. */
  lemma ScheduleRunIsPlanned(request: Request)
    requires IsScheduleRun(request)
    ensures var p := PlanOf(request);
            && NextRequest(request).days == Carried(request.days, p, request.currency).days && p.replaced == []
            && ComesFrom(request, p) && PlanFits(request.days, p, request.currency)
            && Defects(NextRequest(request).days) + |p.moves| + |p.rests| == Defects(request.days)
  {
    hide PlanOf, Carried, ComesFrom, PlanFits, Repaired, Defects, WantsLate, WantsReplacement;
    NothingReplaced(request);
    RunIsPlanned(request);
    PlanComesFrom(request);
    PlanFitsItsRequest(request);
    ScheduleRunProgress(request);
  }

  lemma LastingStays(request: Request)
    requires IsScheduleRun(request)
    ensures Lasting(NextRequest(request)) == Lasting(request)
  {
    var days, p, currency := request.days, PlanOf(request), request.currency;
    var after := NextRequest(request).days;
    SameWants(request);
    ScheduleRunIsPlanned(request);
    hide PlanOf, Carried, ComesFrom, PlanFits, NextRequest, Defects, WantsLate, WantsReplacement, WantsBudget, IsLasting;
    hide Keeps, Select, Amount;
    KeepsLasting(days, p, currency);
    forall e, j | 0 <= e < |days| && |days[e].items| <= j < |after[e].items|
      ensures !IsLasting(after[e].items[j])
    {
      CostsAfterRun(request, p, At(e, j));
      RestIsFree(currency);
    }
    KeepsMeans(days, after, IsLasting);
    SelectOfKept(days, after, IsLasting, 0, 0);
  }

  lemma KeepsMeans(a: seq<Day>, b: seq<Day>, f: Item -> bool)
    requires Keeps(a, b, f)
    ensures |a| == |b|
  {
  }

  lemma RestIsFree(currency: string)
    ensures !IsLasting(RestBlock(currency)) && Amount(RestBlock(currency)) == Some(0.0)
  {
  }

  lemma KeepsLasting(days: seq<Day>, p: Plan, currency: string)
    requires p.replaced == []
    ensures Keeps(days, Carried(days, p, currency).days, IsLasting)
  {
    CutsKeepLasting(currency);
    hide ChangeAll, IsLasting, Keeps, Fixed;
    var l0 := Ledger(days, []);
    var l1 := ChangeAll(l0, CostCut, p.cuts, currency);
    var l2 := ChangeAll(l1, MovedEarlier, p.moves, currency);
    var l3 := ChangeAll(l2, RestAdded, p.rests, currency);
    ChangesKeep(l0, CostCut, p.cuts, currency, IsLasting);
    ChangesKeep(l1, MovedEarlier, p.moves, currency, IsLasting);
    ChangesKeep(l2, RestAdded, p.rests, currency, IsLasting);
    KeepsTransitive(days, l1.days, l2.days, IsLasting);
    KeepsTransitive(days, l2.days, l3.days, IsLasting);
    NoTargetsNoChange(l3, Replaced, currency);
  }

  lemma AmountByCost(a: Item, b: Item)
    requires CostOf(a) == CostOf(b)
    ensures Amount(a) == Amount(b)
  {
  }

  lemma CutAmount(item: Item, currency: string)
    requires Amount(CutCost(item, currency)).Some? && Amount(CutCost(item, currency)).value > 0.0
    ensures Amount(item).Some? && Amount(item).value > 0.0 && IsLasting(item)
  {
    hide MarkedName, AppendNote;
    if Amount(item).Some? {
      ReductionVanishes(Amount(item).value);
    }
  }

  /** What costs something after a run did before; and if it was cut, it will for ever. */
  lemma PayableBefore(request: Request, t: Address)
    requires IsScheduleRun(request) && AmountAt(NextRequest(request).days, t) > 0.0
    ensures AmountAt(request.days, t) > 0.0
    ensures t in PlanOf(request).cuts ==> IsLasting(request.days[t.d].items[t.i])
  {
    var days, p, currency := request.days, PlanOf(request), request.currency;
    var after := NextRequest(request).days;
    ScheduleRunIsPlanned(request);
    hide PlanOf, Carried, ComesFrom, PlanFits, Repaired, Defects, WantsLate, WantsReplacement, IsLasting, CutCost, Amount;
    CostsAfterRun(request, p, t);
    if !InRange(days, t) {
      RestIsFree(currency);
    } else if t in p.cuts {
      AmountByCost(after[t.d].items[t.i], CutCost(days[t.d].items[t.i], currency));
      CutAmount(days[t.d].items[t.i], currency);
    } else {
      AmountByCost(after[t.d].items[t.i], days[t.d].items[t.i]);
    }
  }

  lemma PositiveTargets(days: seq<Day>)
    ensures Distinct(BudgetTargets(days))
    ensures forall t :: t in BudgetTargets(days) <==> AmountAt(days, t) > 0.0
  {
    BudgetTargetsRanked(days);
    hide BudgetTargets, Distinct;
    forall t: Address
      ensures AmountAt(days, t) > 0.0 ==> InRange(days, t)
    {
      InRangeWhenPositive(days, t);
    }
  }

  lemma CostlyItemsFall(request: Request)
    requires IsScheduleRun(request)
    ensures var days, after, cuts := request.days, NextRequest(request).days, PlanOf(request).cuts;
            && |BudgetTargets(after)| <= |BudgetTargets(days)|
            && forall t :: t in cuts && InRange(days, t) && !IsLasting(days[t.d].items[t.i]) ==>
                 |BudgetTargets(after)| < |BudgetTargets(days)|
  {
    var days, after, cuts := request.days, NextRequest(request).days, PlanOf(request).cuts;
    var xs, ys := BudgetTargets(after), BudgetTargets(days);
    PlanFitsItsRequest(request);
    hide PlanOf, NextRequest, BudgetTargets, AmountAt, IsLasting, Distinct, IsScheduleRun, PlanFits;
    PositiveTargets(after);
    PositiveTargets(days);
    forall t | t in xs
      ensures t in ys && (t in cuts ==> InRange(days, t) && IsLasting(days[t.d].items[t.i]))
    {
      PayableBefore(request, t);
      InRangeWhenPositive(days, t);
    }
    NoMoreThan(xs, ys);
    forall t | t in cuts && InRange(days, t) && !IsLasting(days[t.d].items[t.i])
      ensures |xs| < |ys|
    {
      FewerThan(xs, ys, t);
    }
  }

  /** The items that cost something grow no more, and become fewer when one is cut whose amount does not last. */
  lemma PayableFalls(request: Request)
    requires IsScheduleRun(request)
    ensures Payable(NextRequest(request)) <= Payable(request)
    ensures forall t :: t in PlanOf(request).cuts && InRange(request.days, t) && !IsLasting(request.days[t.d].items[t.i]) ==>
              Payable(NextRequest(request)) < Payable(request)
  {
    hide PlanOf, NextRequest, BudgetTargets, IsLasting, WantsLate, WantsReplacement, WantsBudget;
    SameWants(request);
    NoCutsUnwanted(request);
    CostlyItemsFall(request);
  }

  lemma InRangeWhenPositive(days: seq<Day>, t: Address)
    ensures AmountAt(days, t) > 0.0 ==> InRange(days, t)
  {
  }

  lemma NoCutsUnwanted(request: Request)
    requires IsScheduleRun(request)
    ensures !WantsBudget(request) ==> PlanOf(request).cuts == []
  {
    hide BudgetTargets, LateTargets, RestTargets, LocateAll, Grown, Mentions, AffectedPairs;
  }

  // ---------- when repeated runs get to the end ----------

  lemma LastingArePayable(request: Request)
    ensures Lasting(request) <= Payable(request)
  {
    SelectMembers(request.days, IsLasting, 0, 0);
    PositiveTargets(request.days);
    hide Select, BudgetTargets, WantsBudget, Distinct;
    NoMoreThan(Select(request.days, IsLasting, 0, 0), BudgetTargets(request.days));
  }

  lemma LastingCuts(days: seq<Day>, cuts: seq<Address>)
    requires Distinct(cuts) && forall t :: t in cuts ==> InRange(days, t) && IsLasting(days[t.d].items[t.i])
    ensures |cuts| <= |Select(days, IsLasting, 0, 0)|
  {
    SelectMembers(days, IsLasting, 0, 0);
    hide Select, Distinct, IsLasting;
    NoMoreThan(cuts, Select(days, IsLasting, 0, 0));
  }

  /** The sizes of a schedule run's plan. */
  lemma PlanSizes(request: Request)
    requires IsScheduleRun(request)
    ensures var p, max := PlanOf(request), MaxChanges(request);
            && |p.cuts| == (if WantsBudget(request) then (if Payable(request) < max then Payable(request) else max) else 0)
            && (|p.cuts| >= max ==> p.moves == [] && p.rests == [])
            && (|p.cuts| < max && p.moves == [] ==> LateTargets(request.days) == [])
            && (WantsRest(request) && |p.cuts| < max && p.moves == [] && p.rests == [] ==> RestTargets(request.days, 0) == [])
            && (p.cuts == [] && p.moves == [] && p.rests == [] ==> RestTargets(request.days, 0) == [])
            && (!WantsRest(request) && p.cuts != [] ==> p.rests == [])
  {
    hide BudgetTargets, LateTargets, RestTargets, LocateAll, Grown, Mentions, AffectedPairs;
    var p := RequestedPlan(request);
    if p == NO_CHANGE {
      assert PlanOf(request) == NO_CHANGE.(rests := RestsPlanned(request));
    }
  }

  /** While there is something to do and it can be done, every run does some of it. */
  lemma SomethingHappens(request: Request)
    requires IsScheduleRun(request) && Finishes(request) && Defects(request.days) > 0
    ensures var p := PlanOf(request);
            || p.moves != [] || p.rests != []
            || exists t :: t in p.cuts && InRange(request.days, t) && !IsLasting(request.days[t.d].items[t.i])
  {
    var days, p, max := request.days, PlanOf(request), MaxChanges(request);
    PlanSizes(request);
    PlanFitsItsRequest(request);
    hide PlanOf, BudgetTargets, LateTargets, RestTargets, WantsBudget, WantsRest, WantsLate, WantsReplacement, IsLasting, Select;
    hide AmountAt, Distinct, Defects;
    if p.moves == [] && p.rests == [] && forall t :: t in p.cuts && InRange(days, t) ==> IsLasting(days[t.d].items[t.i]) {
      assert forall t :: t in p.cuts ==> Applies(days, CostCut, t);
      LastingCuts(days, p.cuts);
      NoTargetsNoDefects(days);
    }
  }

  lemma RestsStayNeeded(request: Request)
    requires IsScheduleRun(request) && PlanOf(request).rests == []
    ensures RestTargets(NextRequest(request).days, 0) == RestTargets(request.days, 0)
  {
    var days, p, currency := request.days, PlanOf(request), request.currency;
    ScheduleRunIsPlanned(request);
    hide PlanOf, NextRequest, ComesFrom, PlanFits, Defects, ChangeAll, LateTargets, RestTargets, Keeps, SameShape, IsScheduleRun;
    var l1 := ChangeAll(Ledger(days, []), CostCut, p.cuts, currency);
    var l2 := ChangeAll(l1, MovedEarlier, p.moves, currency);
    AfterCuts(days, p.cuts, currency);
    AfterMoves(days, l1, p.moves, currency);
    NoTargetsNoChange(l2, RestAdded, currency);
    NoTargetsNoChange(l2, Replaced, currency);
  }

  lemma NoRestsPlanned(request: Request)
    ensures RestTargets(request.days, 0) == [] ==> PlanOf(request).rests == []
  {
    PlanComesFrom(request);
    hide PlanOf, BudgetTargets, LateTargets, RestTargets, LocateAll, Grown, AffectedPairs;
  }

  /** A run of the finishing kind stays of that kind and leaves less work. */
  lemma FinishingRun(request: Request)
    requires IsScheduleRun(request) && Finishes(request)
    ensures var next := NextRequest(request);
            && IsScheduleRun(next) && Finishes(next) && Defects(next.days) <= Defects(request.days)
            && (Defects(request.days) > 0 ==> Work(next) < Work(request))
  {
    SameWants(request);
    LastingStays(request);
    ScheduleRunIsPlanned(request);
    PayableFalls(request);
    NoRestsPlanned(request);
    hide PlanOf, NextRequest, Carried, ComesFrom, PlanFits, Defects, Lasting, Payable, RestTargets, IsLasting;
    hide WantsBudget, WantsRest, WantsLate, WantsReplacement;
    if PlanOf(request).rests == [] {
      RestsStayNeeded(request);
    }
    if Defects(request.days) > 0 {
      SomethingHappens(request);
    }
  }

  lemma {:induction false} RestlessIsDefect(days: seq<Day>, d: nat)
    requires RestTargets(days, d) != []
    ensures Total(days[if d < |days| then d else |days|..], DayDefects) > 0
    decreases |days| - d
  {
    if d < |days| {
      hide HasRest, IsLate;
      assert days[d..][1..] == days[d + 1..];
      if HasRest(days[d]) {
        RestlessIsDefect(days, d + 1);
      }
    }
  }

  /** A run of the other kind stays of that kind. */
  lemma StuckRun(request: Request)
    requires IsScheduleRun(request) && !Finishes(request)
    ensures IsScheduleRun(NextRequest(request)) && !Finishes(NextRequest(request))
  {
    SameWants(request);
    LastingStays(request);
    ScheduleRunIsPlanned(request);
    PlanSizes(request);
    LastingArePayable(request);
    hide PlanOf, NextRequest, Carried, ComesFrom, PlanFits, Payable, RestTargets, LateTargets;
    hide WantsBudget, WantsRest, WantsLate, WantsReplacement;
    LastingNeedsBudget(request);
    hide Lasting;
    if PlanOf(request).rests == [] {
      RestsStayNeeded(request);
      var after := NextRequest(request).days;
      if RestTargets(after, 0) != [] {
        RestlessIsDefect(after, 0);
        assert after[0..] == after;
      }
    }
  }

  lemma LastingNeedsBudget(request: Request)
    ensures Lasting(request) > 0 ==> WantsBudget(request)
  {
    hide Select;
  }

  lemma NoRuns(request: Request)
    ensures request.(days := AfterRuns(request, 0)) == request
  {
    hide Repaired;
  }

  lemma NextOfRuns(request: Request, n: nat)
    requires n > 0
    ensures request.(days := AfterRuns(request, n)) == NextRequest(request.(days := AfterRuns(request, n - 1)))
  {
    hide Repaired;
  }

  lemma {:induction false} RunsKeepKind(request: Request, n: nat)
    requires IsScheduleRun(request)
    ensures var now := request.(days := AfterRuns(request, n));
            && IsScheduleRun(now) && (Finishes(now) <==> Finishes(request))
            && (Finishes(request) ==> Defects(now.days) == 0 || Work(now) + n <= Work(request))
  {
    hide IsScheduleRun, Finishes, NextRequest, AfterRuns, Defects, Work;
    if n == 0 {
      NoRuns(request);
    } else {
      RunsKeepKind(request, n - 1);
      NextOfRuns(request, n);
      var before := request.(days := AfterRuns(request, n - 1));
      if Finishes(request) {
        FinishingRun(before);
      } else {
        StuckRun(before);
      }
    }
  }

  /** Repeated schedule runs end without late items or days without rest if and only if the request is of the
      finishing kind, and then they have done so once there have been as many of them as there was work; otherwise
      they never do. */
  lemma RepeatedRunsFinish(request: Request, n: nat)
    requires IsScheduleRun(request)
    ensures if Finishes(request) then n >= Work(request) ==> Defects(AfterRuns(request, n)) == 0
            else Defects(AfterRuns(request, n)) > 0
  {
    RunsKeepKind(request, n);
    hide IsScheduleRun, AfterRuns, Lasting, Payable, RestTargets, WantsRest;
  }

  // ---------- two kinds of run that never finish ----------

  const DINNER := Item("22:00", None, "food", "Dinner", "", Priced(Some(1.0), Code("EUR"), true), None, None)
  const DINNER_DAY := Day(Some(1), "Day 1", "", [DINNER])
  const LATE_TRIP := Request([DINNER_DAY], "EUR", FixScheduleRisk, [], ["budget"], [], Some(1))

  /** One late item of one cent, a budget issue and room for one change: every run cuts the cent, which stays, and
      the item is late for ever. */
  lemma CentTakesEveryRun(n: nat)
    ensures IsScheduleRun(LATE_TRIP) && !Finishes(LATE_TRIP)
    ensures Defects(AfterRuns(LATE_TRIP, n)) > 0
  {
    LateTripIsStuck();
    hide Finishes, IsScheduleRun, AfterRuns, Defects;
    RepeatedRunsFinish(LATE_TRIP, n);
  }

  lemma LateTripIsStuck()
    ensures IsScheduleRun(LATE_TRIP) && !Finishes(LATE_TRIP)
  {
    LateTripWants();
    DinnerLasts();
    DinnerIsDefect();
    hide Mentions, WantsBudget, WantsReplacement, Defects, Select;
  }

  lemma LateTripWants()
    ensures WantsBudget(LATE_TRIP) && !WantsReplacement(LATE_TRIP)
  {
    assert IssueWords(LATE_TRIP) == ["fix_schedule_risk", "budget"];
    assert IssueWords(LATE_TRIP)[1] == "budget";
    ContainsItself("budget");
    NotDisallowed();
    hide Contains;
  }

  lemma StartsSomewhere(word: string, part: string)
    requires |part| >= 2
    ensures Contains(word, part) ==> exists i :: 0 <= i < |word| - 1 && word[i] == part[0] && word[i + 1] == part[1]
  {
    if Contains(word, part) {
      var i, j :| 0 <= i <= j <= |word| && word[i..j] == part;
      assert word[i..j][0] == word[i] && word[i..j][1] == word[i + 1];
    }
  }

  /** No "di" in the one word, too few letters in the other. */
  lemma NotDisallowed()
    ensures !Contains("fix_schedule_risk", "disallowed") && !Contains("budget", "disallowed")
  {
    StartsSomewhere("fix_schedule_risk", "disallowed");
    StartsSomewhere("budget", "disallowed");
    hide Contains;
  }

  lemma DinnerLasts()
    ensures |Select(LATE_TRIP.days, IsLasting, 0, 0)| >= 1
  {
    SelectHas(LATE_TRIP.days, IsLasting, 0, 0, At(0, 0));
    hide Select;
  }

  lemma DinnerIsDefect()
    ensures Defects(LATE_TRIP.days) > 0
  {
    DinnerIsNoRest();
    hide IsRest, IsLate;
    CountNone(DINNER_DAY.items, IsRest);
    RestlessDefect(LATE_TRIP.days);
  }

  lemma RestlessDefect(days: seq<Day>)
    requires |days| == 1 && !HasRest(days[0])
    ensures Defects(days) > 0
  {
    hide HasRest, IsLate;
  }

  lemma DinnerIsNoRest()
    ensures !IsRest(DINNER)
  {
    StripOfTrimmed("food");
    assert Lower("food") == "food";
  }


  /** A single numbered day that has items but no rest. */
  ghost predicate OneRestlessDay(days: seq<Day>) {
    && |days| == 1 && DayNumber(days[0]).Some? && days[0].items != []
    && forall i :: 0 <= i < |days[0].items| ==> !IsRest(days[0].items[i])
  }

  lemma ActivityIsNoRest(item: Item)
    ensures !IsRest(ReplaceItem(item))
  {
    hide MarkedName, AppendNote, Strip, Lower;
    ActivityInLower();
  }

  lemma ActivityInLower()
    ensures Strip("activity") == "activity" && Lower("activity") != "" && Lower("activity")[0] == 'a'
  {
    StripOfTrimmed("activity");
    hide Strip;
  }

  lemma NoChangeRests(item: Item, kind: Kind, currency: string)
    requires !IsRest(item)
    ensures !IsRest(Fixed(item, kind, currency))
  {
    CutsKeepSchedule(currency);
    MovesKeepRests(currency);
    ActivityIsNoRest(item);
    hide IsRest, CutCost, MoveEarlier, ReplaceItem;
    assert kind == CostCut ==> IsRest(Fixed(item, CostCut, currency)) == IsRest(item);
    assert kind == MovedEarlier ==> IsRest(Fixed(item, MovedEarlier, currency)) == IsRest(item);
  }

  lemma RestlessAt(l: Ledger, kind: Kind, at: Address, currency: string)
    requires OneRestlessDay(l.days) && kind != RestAdded
    ensures OneRestlessDay(ChangeAt(l, kind, at, currency).days)
  {
    hide IsRest, Fixed, Logged;
    if Applies(l.days, kind, at) {
      NoChangeRests(l.days[0].items[at.i], kind, currency);
    }
  }

  lemma {:induction false} RestlessAll(l: Ledger, kind: Kind, targets: seq<Address>, currency: string)
    requires OneRestlessDay(l.days) && kind != RestAdded
    ensures OneRestlessDay(ChangeAll(l, kind, targets, currency).days)
  {
    if targets != [] {
      hide OneRestlessDay, ChangeAt;
      RestlessAll(l, kind, targets[..|targets| - 1], currency);
      RestlessAt(ChangeAll(l, kind, targets[..|targets| - 1], currency), kind, targets[|targets| - 1], currency);
    }
  }

  /** A run that looks for replacements, but not for rests, on such a day: it always finds something to change. */
  ghost predicate ReplacesForEver(request: Request) {
    && OneRestlessDay(request.days) && request.affected == []
    && WantsReplacement(request) && !WantsRest(request) && request.mode != ReduceWalking
  }

  lemma AlwaysReplaces(request: Request)
    requires ReplacesForEver(request)
    ensures PlanOf(request).rests == []
  {
    var days := request.days;
    hide BudgetTargets, LateTargets, RestTargets, Mentions, IsRest, Take;
    assert AffectedPairs(request) == [(DayNumber(days[0]).value, 0)];
    NothingGrown(days, request.currency);
    assert Locate(days, DayNumber(days[0]).value, 0, 0) == Some(At(0, 0));
    OneLocated(days, DayNumber(days[0]).value);
    hide Grown, LocateAll;
    TakesOne(At(0, 0), Left(MaxChanges(request), |RequestedPlan(request).cuts| + |RequestedPlan(request).moves|));
    assert RequestedPlan(request) != NO_CHANGE;
  }

  lemma NothingGrown(days: seq<Day>, currency: string)
    ensures Grown(days, [], currency) == days
  {
  }

  lemma OneLocated(days: seq<Day>, number: int)
    requires Locate(days, number, 0, 0) == Some(At(0, 0))
    ensures LocateAll(days, [(number, 0)]) == [At(0, 0)]
  {
    assert [(number, 0)][1..] == [];
  }

  lemma TakesOne(t: Address, n: nat)
    ensures n > 0 ==> Take([t], n) == [t]
  {
  }

  /** Replacing goes on for ever and keeps the rest away: neither kind of request, with a disallowed issue or with a
      budget one, may be left out of account when runs are repeated. */
  lemma {:induction false} ReplacingNeverFinishes(request: Request, n: nat)
    requires ReplacesForEver(request)
    ensures OneRestlessDay(AfterRuns(request, n)) && Defects(AfterRuns(request, n)) > 0
  {
    hide WantsReplacement, WantsRest, Repaired, Defects, OneRestlessDay;
    if n == 0 {
    } else {
      ReplacingNeverFinishes(request, n - 1);
      var before := request.(days := AfterRuns(request, n - 1));
      ReplacingKeepsRestless(request, before);
    }
    RestlessDefects(AfterRuns(request, n));
  }

  lemma RestlessDefects(days: seq<Day>)
    requires OneRestlessDay(days)
    ensures Defects(days) > 0
  {
    hide IsLate, IsRest;
    CountNone(days[0].items, IsRest);
    RestlessDefect(days);
  }

  lemma ReplacingKeepsRestless(request: Request, before: Request)
    requires ReplacesForEver(request) && before == request.(days := before.days) && OneRestlessDay(before.days)
    ensures OneRestlessDay(Repaired(before).days)
  {
    assert IssueWords(before) == IssueWords(request);
    AlwaysReplaces(before);
    RunIsPlanned(before);
    var p, currency := PlanOf(before), before.currency;
    hide PlanOf, Repaired, ChangeAll, OneRestlessDay, Mentions, SameButNotes;
    var l1 := ChangeAll(Ledger(before.days, []), CostCut, p.cuts, currency);
    RestlessAll(Ledger(before.days, []), CostCut, p.cuts, currency);
    var l2 := ChangeAll(l1, MovedEarlier, p.moves, currency);
    RestlessAll(l1, MovedEarlier, p.moves, currency);
    NoTargetsNoChange(l2, RestAdded, currency);
    RestlessAll(l2, Replaced, p.replaced, currency);
  }
}
