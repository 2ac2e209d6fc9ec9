/** What a run of `repair_itinerary` is going to change, read off its request alone: no target depends on what the
    operations before it did. */
module RepairPlan {
  import opened Text
  import opened Sequences
  import opened Itinerary
  import opened Repair

  /** The addresses a run changes, operation by operation. */
  datatype Plan = Plan(cuts: seq<Address>, moves: seq<Address>, rests: seq<Address>, replaced: seq<Address>)

  const NO_CHANGE := Plan([], [], [], [])

  function Size(p: Plan): nat {
    |p.cuts| + |p.moves| + |p.rests| + |p.replaced|
  }

  function Left(max: nat, used: nat): nat {
    if used < max then max - used else 0
  }

  function CutsPlanned(request: Request): seq<Address> {
    Take(BudgetTargets(request.days), MaxChanges(request))
  }

  function RestsPlanned(request: Request): seq<Address> {
    Take(RestTargets(request.days, 0), MaxChanges(request))
  }

  /** The days with the planned rest blocks: `_item_at` may find an issue's item among these. */
  function Grown(days: seq<Day>, rests: seq<Address>, currency: string): seq<Day> {
    ChangeAll(Ledger(days, []), RestAdded, rests, currency).days
  }

  function RequestedPlan(request: Request): Plan {
    var days, max := request.days, MaxChanges(request);
    var cuts := if WantsBudget(request) then CutsPlanned(request) else [];
    var moves := if WantsLate(request) then Take(LateTargets(days), Left(max, |cuts|)) else [];
    var rests := if WantsRest(request) then Take(RestTargets(days, 0), Left(max, |cuts| + |moves|)) else [];
    var replaced := if WantsReplacement(request)
                    then Take(LocateAll(Grown(days, rests, request.currency), AffectedPairs(request)),
                              Left(max, |cuts| + |moves| + |rests|))
                    else [];
    Plan(cuts, moves, rests, replaced)
  }

  /** With the fallbacks, for when nothing requested finds a target. */
  function PlanOf(request: Request): Plan {
    if RequestedPlan(request) != NO_CHANGE then RequestedPlan(request)
    else if request.mode == SelectedIssues && BudgetTargets(request.days) != [] then
      NO_CHANGE.(cuts := CutsPlanned(request))
    else NO_CHANGE.(rests := RestsPlanned(request))
  }

  function Carried(days: seq<Day>, p: Plan, currency: string): Ledger {
    var l1 := ChangeAll(Ledger(days, []), CostCut, p.cuts, currency);
    var l2 := ChangeAll(l1, MovedEarlier, p.moves, currency);
    var l3 := ChangeAll(l2, RestAdded, p.rests, currency);
    ChangeAll(l3, Replaced, p.replaced, currency)
  }

  // ---------- targets that fit are all changed ----------

  /** Every target is there; rest targets lie in different days. */
  ghost predicate Fits(days: seq<Day>, kind: Kind, targets: seq<Address>) {
    && (forall t :: t in targets ==> Applies(days, kind, t))
    && (kind == RestAdded ==> forall i, j :: 0 <= i < j < |targets| ==> targets[i].d != targets[j].d)
  }

  lemma FitsFront(days: seq<Day>, kind: Kind, targets: seq<Address>)
    requires Fits(days, kind, targets) && targets != []
    ensures var n := |targets| - 1;
            && Fits(days, kind, targets[..n]) && Applies(days, kind, targets[n])
            && (kind == RestAdded ==> forall t :: t in targets[..n] ==> t.d != targets[n].d)
  {
    assert targets[|targets| - 1] in targets;
    assert forall t :: t in targets[..|targets| - 1] ==> t in targets;
  }

  lemma StillApplies(l: Ledger, kind: Kind, others: seq<Address>, at: Address, currency: string)
    requires Applies(l.days, kind, at) && (kind == RestAdded ==> forall t :: t in others ==> t.d != at.d)
    ensures Applies(ChangeAll(l, kind, others, currency).days, kind, at)
  {
    if kind == RestAdded {
      ChangeAllOtherDay(l, kind, others, currency, at.d);
    } else {
      ChangeAllSizes(l, kind, others, currency, at.d);
    }
    hide ChangeAll;
  }

  lemma {:induction false} AllAreMade(l: Ledger, kind: Kind, targets: seq<Address>, currency: string)
    requires Fits(l.days, kind, targets)
    ensures |ChangeAll(l, kind, targets, currency).changes| == |l.changes| + |targets|
  {
    if targets != [] {
      hide Applies, Changed, Logged, Fits;
      var n := |targets| - 1;
      FitsFront(l.days, kind, targets);
      AllAreMade(l, kind, targets[..n], currency);
      StillApplies(l, kind, targets[..n], targets[n], currency);
    }
  }

  lemma TakeFits(days: seq<Day>, kind: Kind, targets: seq<Address>, n: nat)
    requires Fits(days, kind, targets)
    ensures Fits(days, kind, Take(targets, n))
  {
    hide Applies;
    assert forall t :: t in Take(targets, n) ==> t in targets;
  }

  lemma {:induction false} FilterSorted(xs: seq<Address>, keep: Address -> bool, leq: (Address, Address) -> bool)
    requires Sorted(xs, leq)
    ensures Sorted(Filter(xs, keep), leq)
  {
    if xs != [] {
      assert Sorted(xs[1..], leq);
      FilterSorted(xs[1..], keep, leq);
      FilterMembers(xs[1..], keep);
      var rest := Filter(xs[1..], keep);
      if keep(xs[0]) {
        var all := [xs[0]] + rest;
        forall j | 0 < j < |all|
          ensures leq(xs[0], all[j])
        {
          assert all[j] == rest[j - 1] && all[j] in xs[1..];
        }
        assert forall j :: 0 < j < |all| ==> all[j] == rest[j - 1];
      }
    }
  }

  lemma BudgetTargetsRanked(days: seq<Day>)
    ensures Distinct(BudgetTargets(days)) && Sorted(BudgetTargets(days), Dearer(days))
    ensures forall t :: t in BudgetTargets(days) <==>
              t.d < |days| && t.i < |days[t.d].items| && AmountAt(days, t) > 0.0
  {
    ByCostMembers(days);
    FilterMembers(ByCostDescending(days), CostsSomething(days));
    FilterSorted(ByCostDescending(days), CostsSomething(days), Dearer(days));
  }

  lemma BudgetTargetsFit(days: seq<Day>)
    ensures Fits(days, CostCut, BudgetTargets(days))
  {
    BudgetTargetsRanked(days);
    hide BudgetTargets, AmountAt;
  }

  lemma LateTargetsFit(days: seq<Day>)
    ensures Fits(days, MovedEarlier, LateTargets(days))
  {
    SelectMembers(days, IsLate, 0, 0);
    hide Select, IsLate;
  }

  lemma RestInFront(days: seq<Day>, at: Address, rests: seq<Address>)
    requires Fits(days, RestAdded, rests) && Applies(days, RestAdded, at) && forall t :: t in rests ==> t.d > at.d
    ensures Fits(days, RestAdded, [at] + rests)
  {
    hide Applies;
    var all := [at] + rests;
    assert forall j :: 0 < j < |all| ==> all[j] == rests[j - 1] && all[j] in rests;
  }

  /** Rest targets from a day on lie there, in days without rest. */
  ghost predicate RestlessFrom(days: seq<Day>, rests: seq<Address>, d: nat) {
    forall t :: t in rests ==> d <= t.d < |days| && !HasRest(days[t.d])
  }

  lemma NoRests(days: seq<Day>, d: nat)
    ensures Fits(days, RestAdded, []) && RestlessFrom(days, [], d)
  {
  }

  lemma RestlessInFront(days: seq<Day>, at: Address, rests: seq<Address>)
    requires RestlessFrom(days, rests, at.d + 1) && at.d < |days| && !HasRest(days[at.d])
    ensures RestlessFrom(days, [at] + rests, at.d) && forall t :: t in rests ==> t.d > at.d
  {
    hide HasRest;
  }

  lemma RestlessLater(days: seq<Day>, rests: seq<Address>, d: nat)
    requires RestlessFrom(days, rests, d + 1)
    ensures RestlessFrom(days, rests, d)
  {
    hide HasRest;
  }

  lemma {:induction false} RestTargetsFit(days: seq<Day>, d: nat)
    ensures Fits(days, RestAdded, RestTargets(days, d))
    ensures RestlessFrom(days, RestTargets(days, d), d)
    decreases |days| - d
  {
    hide Fits, RestlessFrom, HasRest;
    if d >= |days| {
      NoRests(days, d);
    } else {
      RestTargetsFit(days, d + 1);
      var rest := RestTargets(days, d + 1);
      NextRest(days, d);
      if HasRest(days[d]) {
        RestlessLater(days, rest, d);
      } else {
        RestlessInFront(days, At(d, |days[d].items|), rest);
        RestInFront(days, At(d, |days[d].items|), rest);
      }
    }
  }

  lemma {:induction false} LocatedFit(days: seq<Day>, pairs: seq<(int, int)>)
    ensures Fits(days, Replaced, LocateAll(days, pairs))
  {
    if pairs != [] {
      LocatedFit(days, pairs[1..]);
      LocateApplies(days, pairs[0].0, pairs[0].1, 0);
      hide Locate;
    }
  }

  // ---------- what the operations leave alone ----------

  /** Same days, with as many items each. */
  ghost predicate SameShape(a: seq<Day>, b: seq<Day>) {
    && |a| == |b|
    && forall d :: 0 <= d < |a| ==> DayNumber(a[d]) == DayNumber(b[d]) && |a[d].items| == |b[d].items|
  }

  /** Every item of `a` is in its place in `b` as far as `f` sees. */
  ghost predicate Keeps<T(!new)>(a: seq<Day>, b: seq<Day>, f: Item -> T) {
    && |a| == |b|
    && forall d :: 0 <= d < |a| ==>
         |a[d].items| <= |b[d].items| && forall i :: 0 <= i < |a[d].items| ==> f(b[d].items[i]) == f(a[d].items[i])
  }

  lemma KeepsTransitive<T(!new)>(a: seq<Day>, b: seq<Day>, c: seq<Day>, f: Item -> T)
    requires Keeps(a, b, f) && Keeps(b, c, f)
    ensures Keeps(a, c, f)
  {
    forall d | 0 <= d < |a|
      ensures |a[d].items| <= |c[d].items|
      ensures forall i :: 0 <= i < |a[d].items| ==> f(c[d].items[i]) == f(a[d].items[i])
    {
      forall i | 0 <= i < |a[d].items|
        ensures f(c[d].items[i]) == f(a[d].items[i])
      {
        assert f(c[d].items[i]) == f(b[d].items[i]);
      }
    }
  }

  /** What a kind of change does not touch in an item, a round of such changes does not touch anywhere. */
  lemma {:induction false} ChangesKeep<T(!new)>(l: Ledger, kind: Kind, targets: seq<Address>, currency: string, f: Item -> T)
    requires forall item :: f(Fixed(item, kind, currency)) == f(item)
    ensures Keeps(l.days, ChangeAll(l, kind, targets, currency).days, f)
  {
    if targets != [] {
      var n := |targets| - 1;
      ChangesKeep(l, kind, targets[..n], currency, f);
      var before := ChangeAll(l, kind, targets[..n], currency);
      hide ChangeAll, Keeps, ChangeAt;
      ChangeKeeps(before, kind, targets[n], currency, f);
      KeepsTransitive(l.days, before.days, ChangeAt(before, kind, targets[n], currency).days, f);
    }
  }

  lemma ChangeKeeps<T(!new)>(l: Ledger, kind: Kind, at: Address, currency: string, f: Item -> T)
    requires forall item :: f(Fixed(item, kind, currency)) == f(item)
    ensures Keeps(l.days, ChangeAt(l, kind, at, currency).days, f)
  {
    hide Fixed, RestBlock, Logged;
  }

  lemma ShapeOfChanges(l: Ledger, kind: Kind, targets: seq<Address>, currency: string)
    requires kind != RestAdded
    ensures SameShape(l.days, ChangeAll(l, kind, targets, currency).days)
  {
    ChangeAllLength(l, kind, targets, currency);
    forall d | 0 <= d < |l.days|
      ensures DayNumber(ChangeAll(l, kind, targets, currency).days[d]) == DayNumber(l.days[d])
      ensures |ChangeAll(l, kind, targets, currency).days[d].items| == |l.days[d].items|
    {
      ChangeAllNumbers(l, kind, targets, currency, d);
      ChangeAllSizes(l, kind, targets, currency, d);
    }
  }

  /** Rest blocks go where the shape says, whatever the items are. */
  lemma {:induction false} ShapeOfRests(l: Ledger, m: Ledger, targets: seq<Address>, currency: string)
    requires SameShape(l.days, m.days)
    ensures SameShape(ChangeAll(l, RestAdded, targets, currency).days, ChangeAll(m, RestAdded, targets, currency).days)
  {
    if targets != [] {
      ShapeOfRests(l, m, targets[..|targets| - 1], currency);
      hide RestBlock, Logged;
    }
  }

  lemma {:induction false} SelectOfKept(a: seq<Day>, b: seq<Day>, p: Item -> bool, d: nat, i: nat)
    requires Keeps(a, b, p)
    requires forall e, j :: 0 <= e < |a| && |a[e].items| <= j < |b[e].items| ==> !p(b[e].items[j])
    ensures Select(a, p, d, i) == Select(b, p, d, i)
    decreases |b| - d, if d < |b| then |b[d].items| - i else 0
  {
    if d < |b| {
      if i < |b[d].items| {
        SelectOfKept(a, b, p, d, i + 1);
        if i >= |a[d].items| {
          SelectPastEnd(a, p, d, i);
        }
      } else {
        SelectOfKept(a, b, p, d + 1, 0);
      }
    }
  }

  lemma SelectPastEnd(a: seq<Day>, p: Item -> bool, d: nat, i: nat)
    requires d < |a| && i >= |a[d].items|
    ensures Select(a, p, d, i) == Select(a, p, d, i + 1) == Select(a, p, d + 1, 0)
  {
  }

  lemma {:induction false} CountOfKept(a: seq<Item>, b: seq<Item>, p: Item -> bool)
    requires |a| == |b| && forall i :: 0 <= i < |a| ==> p(b[i]) == p(a[i])
    ensures Count(a, p) == Count(b, p)
  {
    if a != [] {
      CountOfKept(a[1..], b[1..], p);
    }
  }

  lemma {:induction false} RestTargetsOfKept(a: seq<Day>, b: seq<Day>, d: nat)
    requires SameShape(a, b) && Keeps(a, b, IsRest)
    ensures RestTargets(a, d) == RestTargets(b, d)
    decreases |a| - d
  {
    if d < |a| {
      hide IsRest;
      CountOfKept(a[d].items, b[d].items, IsRest);
      RestTargetsOfKept(a, b, d + 1);
    }
  }

  lemma {:induction false} LocateByShape(a: seq<Day>, b: seq<Day>, number: int, index: int, d: nat)
    requires SameShape(a, b)
    ensures Locate(a, number, index, d) == Locate(b, number, index, d)
    decreases |a| - d
  {
    if d < |a| {
      LocateByShape(a, b, number, index, d + 1);
    }
  }

  lemma {:induction false} LocateAllByShape(a: seq<Day>, b: seq<Day>, pairs: seq<(int, int)>)
    requires SameShape(a, b)
    ensures LocateAll(a, pairs) == LocateAll(b, pairs)
  {
    if pairs != [] {
      LocateByShape(a, b, pairs[0].0, pairs[0].1, 0);
      LocateAllByShape(a, b, pairs[1..]);
    }
  }

  lemma CutsKeepSchedule(currency: string)
    ensures forall item :: IsLate(Fixed(item, CostCut, currency)) == IsLate(item)
    ensures forall item :: IsRest(Fixed(item, CostCut, currency)) == IsRest(item)
  {
    hide MarkedName, AppendNote, Reduced, Strip, Lower;
  }

  lemma MovesKeepRests(currency: string)
    ensures forall item :: IsRest(Fixed(item, MovedEarlier, currency)) == IsRest(item)
  {
    hide AppendNote, Strip, Lower;
  }

  // ---------- the requested operations are the requested plan ----------

  lemma SomeIsPlanned(l: Ledger, kind: Kind, targets: seq<Address>, max: nat, currency: string)
    requires Fits(l.days, kind, targets)
    ensures var taken := Take(targets, Left(max, |l.changes|));
            && ChangeSome(l, kind, targets, max, currency) == ChangeAll(l, kind, taken, currency)
            && |ChangeSome(l, kind, targets, max, currency).changes| == |l.changes| + |taken|
  {
    TakeFits(l.days, kind, targets, Left(max, |l.changes|));
    hide Fits;
    AllAreMade(l, kind, Take(targets, Left(max, |l.changes|)), currency);
  }

  /** After the cuts: the late items and the days without rest are those of the input. */
  lemma AfterCuts(days: seq<Day>, cuts: seq<Address>, currency: string)
    ensures var after := ChangeAll(Ledger(days, []), CostCut, cuts, currency).days;
            && SameShape(days, after) && Keeps(days, after, IsRest) && LateTargets(after) == LateTargets(days)
  {
    var l0 := Ledger(days, []);
    CutsKeepSchedule(currency);
    hide IsLate, IsRest, Fixed, ChangeAll;
    ChangesKeep(l0, CostCut, cuts, currency, IsLate);
    ChangesKeep(l0, CostCut, cuts, currency, IsRest);
    ShapeOfChanges(l0, CostCut, cuts, currency);
    SelectOfKept(days, ChangeAll(l0, CostCut, cuts, currency).days, IsLate, 0, 0);
  }

  /** ... and after the moves the days without rest still are. */
  lemma AfterMoves(days: seq<Day>, l: Ledger, moves: seq<Address>, currency: string)
    requires SameShape(days, l.days) && Keeps(days, l.days, IsRest)
    ensures var after := ChangeAll(l, MovedEarlier, moves, currency).days;
            SameShape(days, after) && RestTargets(after, 0) == RestTargets(days, 0)
  {
    MovesKeepRests(currency);
    hide IsRest, Fixed, ChangeAll;
    var after := ChangeAll(l, MovedEarlier, moves, currency).days;
    ChangesKeep(l, MovedEarlier, moves, currency, IsRest);
    ShapeOfChanges(l, MovedEarlier, moves, currency);
    KeepsTransitive(days, l.days, after, IsRest);
    RestTargetsOfKept(days, after, 0);
  }

  lemma NoTargetsNoChange(l: Ledger, kind: Kind, currency: string)
    ensures ChangeAll(l, kind, [], currency) == l
  {
  }

  lemma RequestedIsPlanned(request: Request)
    ensures var p := RequestedPlan(request);
            Requested(request) == Carried(request.days, p, request.currency) && |Requested(request).changes| == Size(p)
  {
    var days, max, currency := request.days, MaxChanges(request), request.currency;
    var p := RequestedPlan(request);
    hide ChangeSome, ChangeAll, BudgetTargets, LateTargets, RestTargets, LocateAll, Grown, Fits, Take, Keeps, SameShape;
    hide WantsBudget, WantsLate, WantsRest, WantsReplacement, AffectedPairs;
    var l0 := Ledger(days, []);
    BudgetTargetsFit(days);
    NoTargetsNoChange(l0, CostCut, currency);
    SomeIsPlanned(l0, CostCut, BudgetTargets(days), max, currency);
    var l1 := if WantsBudget(request) then BudgetCut(l0, request) else l0;
    assert l1 == ChangeAll(l0, CostCut, p.cuts, currency) && |l1.changes| == |p.cuts|;
    AfterCuts(days, p.cuts, currency);
    LateTargetsFit(l1.days);
    NoTargetsNoChange(l1, MovedEarlier, currency);
    SomeIsPlanned(l1, MovedEarlier, LateTargets(l1.days), max, currency);
    var l2 := if WantsLate(request) then LateItemsMoved(l1, request) else l1;
    assert l2 == ChangeAll(l1, MovedEarlier, p.moves, currency) && |l2.changes| == |p.cuts| + |p.moves|;
    AfterMoves(days, l1, p.moves, currency);
    RestTargetsFit(l2.days, 0);
    NoTargetsNoChange(l2, RestAdded, currency);
    SomeIsPlanned(l2, RestAdded, RestTargets(l2.days, 0), max, currency);
    var l3 := if WantsRest(request) then RestBlocksAdded(l2, request) else l2;
    assert l3 == ChangeAll(l2, RestAdded, p.rests, currency) && |l3.changes| == |p.cuts| + |p.moves| + |p.rests|;
    SamePlaces(days, l2, p.rests, currency, AffectedPairs(request));
    LocatedFit(l3.days, AffectedPairs(request));
    NoTargetsNoChange(l3, Replaced, currency);
    SomeIsPlanned(l3, Replaced, LocateAll(l3.days, AffectedPairs(request)), max, currency);
  }

  lemma SamePlaces(days: seq<Day>, l: Ledger, rests: seq<Address>, currency: string, pairs: seq<(int, int)>)
    requires SameShape(days, l.days)
    ensures LocateAll(ChangeAll(l, RestAdded, rests, currency).days, pairs) == LocateAll(Grown(days, rests, currency), pairs)
  {
    ShapeOfRests(Ledger(days, []), l, rests, currency);
    LocateAllByShape(Grown(days, rests, currency), ChangeAll(l, RestAdded, rests, currency).days, pairs);
  }

  // ---------- the whole run ----------

  /** The same itinerary but for the items' notes. */
  ghost predicate SameButNotes(a: seq<Day>, b: seq<Day>) {
    && |a| == |b|
    && forall d :: 0 <= d < |a| ==>
         && a[d].(items := []) == b[d].(items := [])
         && |a[d].items| == |b[d].items|
         && forall i :: 0 <= i < |a[d].items| ==> a[d].items[i].(note := "") == b[d].items[i].(note := "")
  }

  /** The walking note touches one note and nothing else. */
  lemma {:induction false} WarningNoteKeeps(days: seq<Day>)
    ensures SameButNotes(days, WarningNote(days))
  {
    if days != [] && days[0].items == [] {
      WarningNoteKeeps(days[1..]);
      hide AppendNote;
      var rest := WarningNote(days[1..]);
      forall d | 0 <= d < |days|
        ensures WarningNote(days)[d] == if d == 0 then days[0] else rest[d - 1]
      {
      }
      assert forall d :: 0 < d < |days| ==> days[d] == days[1..][d - 1];
    }
  }

  lemma SameItself(days: seq<Day>)
    ensures SameButNotes(days, days)
  {
  }

  lemma SameShapeAndRests(a: seq<Day>, b: seq<Day>)
    requires SameButNotes(a, b)
    ensures SameShape(a, b) && RestTargets(a, 0) == RestTargets(b, 0)
  {
    forall d, i | 0 <= d < |a| && 0 <= i < |a[d].items|
      ensures IsRest(b[d].items[i]) == IsRest(a[d].items[i])
    {
      assert a[d].items[i].(note := "") == b[d].items[i].(note := "");
    }
    hide IsRest;
    forall d | 0 <= d < |a|
      ensures DayNumber(a[d]) == DayNumber(b[d])
    {
      assert a[d].(items := []) == b[d].(items := []);
    }
    RestTargetsOfKept(a, b, 0);
  }

  lemma {:induction false} RestsUnderNotes(l: Ledger, m: Ledger, targets: seq<Address>, currency: string)
    requires SameButNotes(l.days, m.days) && l.changes == m.changes
    ensures var after, other := ChangeAll(l, RestAdded, targets, currency), ChangeAll(m, RestAdded, targets, currency);
            SameButNotes(after.days, other.days) && after.changes == other.changes
  {
    if targets != [] {
      var n := |targets| - 1;
      RestsUnderNotes(l, m, targets[..n], currency);
      hide ChangeAll;
      RestUnderNotes(ChangeAll(l, RestAdded, targets[..n], currency), ChangeAll(m, RestAdded, targets[..n], currency),
                     targets[n], currency);
    }
  }

  lemma RestUnderNotes(l: Ledger, m: Ledger, at: Address, currency: string)
    requires SameButNotes(l.days, m.days) && l.changes == m.changes
    ensures var after, other := ChangeAt(l, RestAdded, at, currency), ChangeAt(m, RestAdded, at, currency);
            SameButNotes(after.days, other.days) && after.changes == other.changes
  {
    hide RestBlock, CompactOf;
    if at.d < |l.days| {
      assert l.days[at.d].(items := []) == m.days[at.d].(items := []);
    }
  }

  /** The plan with nothing but rests, on days with or without the walking note. */
  lemma RestsFallback(request: Request, l: Ledger)
    requires l.changes == [] && SameButNotes(request.days, l.days)
    ensures var carried := Carried(request.days, NO_CHANGE.(rests := RestsPlanned(request)), request.currency);
            && RestBlocksAdded(l, request).changes == carried.changes
            && SameButNotes(carried.days, RestBlocksAdded(l, request).days)
            && |carried.changes| == |RestsPlanned(request)|
            && (l.days == request.days ==> RestBlocksAdded(l, request) == carried)
  {
    var days, currency := request.days, request.currency;
    var l0 := Ledger(days, []);
    hide ChangeAll, RestTargets, Take, SameButNotes, Fits;
    SameShapeAndRests(days, l.days);
    RestTargetsFit(l.days, 0);
    SomeIsPlanned(l, RestAdded, RestTargets(l.days, 0), MaxChanges(request), currency);
    RestsUnderNotes(l0, l, RestsPlanned(request), currency);
    NoTargetsNoChange(l0, CostCut, currency);
    NoTargetsNoChange(l0, MovedEarlier, currency);
    NoTargetsNoChange(ChangeAll(l0, RestAdded, RestsPlanned(request), currency), Replaced, currency);
  }

  lemma CutsFallback(request: Request)
    ensures var carried := Carried(request.days, NO_CHANGE.(cuts := CutsPlanned(request)), request.currency);
            && BudgetCut(Ledger(request.days, []), request) == carried
            && |carried.changes| == |CutsPlanned(request)|
    ensures CutsPlanned(request) == [] <==> BudgetTargets(request.days) == []
  {
    var days, currency := request.days, request.currency;
    var l0 := Ledger(days, []);
    hide ChangeAll, BudgetTargets, Fits;
    BudgetTargetsFit(days);
    SomeIsPlanned(l0, CostCut, BudgetTargets(days), MaxChanges(request), currency);
    var l1 := ChangeAll(l0, CostCut, CutsPlanned(request), currency);
    NoTargetsNoChange(l1, MovedEarlier, currency);
    NoTargetsNoChange(l1, RestAdded, currency);
    NoTargetsNoChange(l1, Replaced, currency);
  }

  /** No changes in a plan, none on the itinerary. */
  lemma NothingCarried(days: seq<Day>, currency: string)
    ensures Carried(days, NO_CHANGE, currency) == Ledger(days, [])
  {
  }

  /** Every run, in every mode, does exactly what its plan says: it logs the planned changes in that order and ends
      with the planned itinerary, but for the walking note. */
  lemma RunIsPlanned(request: Request)
    ensures var planned := Carried(request.days, PlanOf(request), request.currency);
            && Repaired(request).changes == planned.changes && |planned.changes| == Size(PlanOf(request))
            && SameButNotes(planned.days, Repaired(request).days)
            && (request.mode != ReduceWalking ==> Repaired(request) == planned)
  {
    var l4 := Requested(request);
    RequestedIsPlanned(request);
    WarningNoteKeeps(l4.days);
    SameItself(l4.days);
    SameItself(Carried(request.days, PlanOf(request), request.currency).days);
    hide Requested, RequestedPlan, WarningNote, SameButNotes, RestBlocksAdded, BudgetCut, Carried, CutsPlanned, RestsPlanned;
    hide BudgetTargets;
    var l5 := if request.mode == ReduceWalking then l4.(days := WarningNote(l4.days)) else l4;
    if RequestedPlan(request) == NO_CHANGE {
      NothingCarried(request.days, request.currency);
      CutsFallback(request);
      RestsFallback(request, l5);
    }
  }

  // ---------- the plan fits its request ----------

  /** The targets of every round are there when it starts; cuts and moves are made at different late or costly items. */
  ghost predicate PlanFits(days: seq<Day>, p: Plan, currency: string) {
    var l1 := ChangeAll(Ledger(days, []), CostCut, p.cuts, currency);
    var l2 := ChangeAll(l1, MovedEarlier, p.moves, currency);
    var l3 := ChangeAll(l2, RestAdded, p.rests, currency);
    && Fits(days, CostCut, p.cuts) && Distinct(p.cuts)
    && Fits(l1.days, MovedEarlier, p.moves) && Distinct(p.moves)
    && (forall t :: t in p.moves ==> InRange(days, t) && IsLate(days[t.d].items[t.i]))
    && Fits(l2.days, RestAdded, p.rests)
    && Fits(l3.days, Replaced, p.replaced)
  }

  /** Where the parts of a plan come from. */
  ghost predicate ComesFrom(request: Request, p: Plan) {
    && p.cuts <= BudgetTargets(request.days) && p.moves <= LateTargets(request.days)
    && p.rests <= RestTargets(request.days, 0)
    && p.replaced <= LocateAll(Grown(request.days, p.rests, request.currency), AffectedPairs(request))
  }

  lemma PlanComesFrom(request: Request)
    ensures ComesFrom(request, PlanOf(request))
  {
    hide BudgetTargets, LateTargets, RestTargets, LocateAll, Grown, Mentions, AffectedPairs;
  }

  lemma PrefixFits(days: seq<Day>, kind: Kind, targets: seq<Address>, some: seq<Address>)
    requires Fits(days, kind, targets) && some <= targets
    ensures Fits(days, kind, some) && forall t :: t in some ==> t in targets
  {
    hide Applies;
    assert some == targets[..|some|];
    assert forall t :: t in some ==> t in targets;
  }

  lemma PrefixIsDistinct(targets: seq<Address>, some: seq<Address>)
    requires Distinct(targets) && some <= targets
    ensures Distinct(some)
  {
  }

  /** The plan of a request fits: nothing in it is skipped when its turn comes. */
  lemma PlanFitsItsRequest(request: Request)
    ensures PlanFits(request.days, PlanOf(request), request.currency)
    ensures forall t :: t in PlanOf(request).cuts ==> AmountAt(request.days, t) > 0.0
  {
    var days, p, currency := request.days, PlanOf(request), request.currency;
    PlanComesFrom(request);
    CutsFit(days, p.cuts);
    MovesFit(days, p.moves);
    hide PlanOf, ChangeAll, BudgetTargets, LateTargets, RestTargets, LocateAll, Grown, Fits, Distinct, Keeps, SameShape;
    hide AmountAt, IsLate;
    var l1 := ChangeAll(Ledger(days, []), CostCut, p.cuts, currency);
    AfterCuts(days, p.cuts, currency);
    LateTargetsFit(l1.days);
    PrefixFits(l1.days, MovedEarlier, LateTargets(l1.days), p.moves);
    var l2 := ChangeAll(l1, MovedEarlier, p.moves, currency);
    AfterMoves(days, l1, p.moves, currency);
    RestTargetsFit(l2.days, 0);
    PrefixFits(l2.days, RestAdded, RestTargets(l2.days, 0), p.rests);
    var l3 := ChangeAll(l2, RestAdded, p.rests, currency);
    SamePlaces(days, l2, p.rests, currency, AffectedPairs(request));
    LocatedFit(l3.days, AffectedPairs(request));
    PrefixFits(l3.days, Replaced, LocateAll(l3.days, AffectedPairs(request)), p.replaced);
  }

  lemma CutsFit(days: seq<Day>, cuts: seq<Address>)
    requires cuts <= BudgetTargets(days)
    ensures Fits(days, CostCut, cuts) && Distinct(cuts) && forall t :: t in cuts ==> AmountAt(days, t) > 0.0
  {
    BudgetTargetsRanked(days);
    BudgetTargetsFit(days);
    hide BudgetTargets, AmountAt, Fits, Distinct;
    PrefixFits(days, CostCut, BudgetTargets(days), cuts);
    PrefixIsDistinct(BudgetTargets(days), cuts);
  }

  lemma MovesFit(days: seq<Day>, moves: seq<Address>)
    requires moves <= LateTargets(days)
    ensures Distinct(moves) && forall t :: t in moves ==> InRange(days, t) && IsLate(days[t.d].items[t.i])
  {
    SelectMembers(days, IsLate, 0, 0);
    LateTargetsFit(days);
    hide Select, IsLate, Fits, Distinct;
    PrefixFits(days, MovedEarlier, LateTargets(days), moves);
    PrefixIsDistinct(LateTargets(days), moves);
  }

  lemma MovedItemIsNotLate(item: Item)
    ensures !IsLate(MoveEarlier(item)) && (IsRest(MoveEarlier(item)) <==> IsRest(item))
  {
    StripOfTrimmed("19:00");
    StripOfTrimmed("20:30");
  }

  lemma RestBlockIsRest(currency: string)
    ensures IsRest(RestBlock(currency)) && !IsLate(RestBlock(currency))
  {
    StripOfTrimmed("rest");
    StripOfTrimmed("15:00");
    assert Lower("rest") == "rest";
  }

  // ---------- what the planned changes leave behind ----------

  lemma FixedThere(l: Ledger, kind: Kind, at: Address, currency: string)
    requires kind != RestAdded && Applies(l.days, kind, at)
    ensures var days := ChangeAt(l, kind, at, currency).days;
            InRange(days, at) && days[at.d].items[at.i] == Fixed(l.days[at.d].items[at.i], kind, currency)
  {
    hide Fixed, Logged;
  }

  lemma {:induction false} TargetIsFixed(l: Ledger, kind: Kind, targets: seq<Address>, currency: string, t: Address)
    requires kind != RestAdded && Fits(l.days, kind, targets) && Distinct(targets) && t in targets
    ensures var days := ChangeAll(l, kind, targets, currency).days;
            InRange(l.days, t) && InRange(days, t) && days[t.d].items[t.i] == Fixed(l.days[t.d].items[t.i], kind, currency)
  {
    hide Fixed, ChangeAt, Fits;
    var n := |targets| - 1;
    var front := targets[..n];
    assert Distinct(front) && targets[n] !in front && targets == front + [targets[n]];
    hide Distinct;
    FitsFront(l.days, kind, targets);
    var before := ChangeAll(l, kind, front, currency);
    if targets[n] == t {
      ChangeAllOtherItem(l, kind, front, currency, t.d, t.i);
      StillApplies(l, kind, front, t, currency);
      FixedThere(before, kind, t, currency);
    } else {
      TargetIsFixed(l, kind, front, currency, t);
      ChangeAtEffect(before, kind, targets[n], currency);
    }
  }

  lemma {:induction false} RestGrows(l: Ledger, targets: seq<Address>, currency: string, t: Address)
    requires Fits(l.days, RestAdded, targets) && t in targets
    ensures var days := ChangeAll(l, RestAdded, targets, currency).days;
            |days| == |l.days| && t.d < |days| && |days[t.d].items| > |l.days[t.d].items|
  {
    var n := |targets| - 1;
    var front := targets[..n];
    FitsFront(l.days, RestAdded, targets);
    assert targets == front + [targets[n]];
    var before := ChangeAll(l, RestAdded, front, currency);
    if targets[n] == t {
      ChangeAllOtherDay(l, RestAdded, front, currency, t.d);
    } else {
      RestGrows(l, front, currency, t);
    }
    ChangeAtEffect(before, RestAdded, targets[n], currency);
    hide ChangeAll, Fits, RestBlock, Logged;
  }

  lemma ReplacedThere(l: Ledger, t: Address, currency: string)
    requires Applies(l.days, Replaced, t)
    ensures var days := ChangeAt(l, Replaced, t, currency).days;
            InRange(days, t) && days[t.d].items[t.i].kind == "activity"
  {
    hide Logged, MarkedName, AppendNote;
  }

  lemma {:induction false} ReplacedIsActivity(l: Ledger, targets: seq<Address>, currency: string, t: Address)
    requires Fits(l.days, Replaced, targets) && t in targets
    ensures var days := ChangeAll(l, Replaced, targets, currency).days;
            InRange(l.days, t) && InRange(days, t) && days[t.d].items[t.i].kind == "activity"
  {
    hide Fits, ChangeAt;
    var n := |targets| - 1;
    var front := targets[..n];
    FitsFront(l.days, Replaced, targets);
    assert targets == front + [targets[n]];
    var before := ChangeAll(l, Replaced, front, currency);
    if targets[n] == t {
      StillApplies(l, Replaced, front, t, currency);
      ReplacedThere(before, t, currency);
    } else {
      ReplacedIsActivity(l, front, currency, t);
      ChangeAtEffect(before, Replaced, targets[n], currency);
    }
  }

  function CostOf(item: Item): Cost {
    item.cost
  }

  lemma LaterChangesKeep(currency: string)
    ensures forall item :: CostOf(Fixed(item, MovedEarlier, currency)) == CostOf(item)
    ensures forall item :: CostOf(Fixed(item, RestAdded, currency)) == CostOf(item)
    ensures forall item :: CostOf(Fixed(item, Replaced, currency)) == CostOf(item)
    ensures forall item :: IsLate(Fixed(item, RestAdded, currency)) == IsLate(item)
    ensures forall item :: IsLate(Fixed(item, Replaced, currency)) == IsLate(item)
  {
    hide MarkedName, AppendNote, Strip;
  }

  lemma CarriedLength(days: seq<Day>, p: Plan, currency: string)
    ensures |Carried(days, p, currency).days| == |days|
  {
    var l1 := ChangeAll(Ledger(days, []), CostCut, p.cuts, currency);
    ChangeAllLength(Ledger(days, []), CostCut, p.cuts, currency);
    var l2 := ChangeAll(l1, MovedEarlier, p.moves, currency);
    ChangeAllLength(l1, MovedEarlier, p.moves, currency);
    ChangeAllLength(l2, RestAdded, p.rests, currency);
    ChangeAllLength(ChangeAll(l2, RestAdded, p.rests, currency), Replaced, p.replaced, currency);
    hide ChangeAll;
  }

  lemma CutStays(days: seq<Day>, p: Plan, currency: string, t: Address)
    requires PlanFits(days, p, currency) && t in p.cuts
    ensures var after := Carried(days, p, currency).days;
            && InRange(days, t) && InRange(after, t)
            && after[t.d].items[t.i].cost == CutCost(days[t.d].items[t.i], currency).cost
  {
    LaterChangesKeep(currency);
    TargetIsFixed(Ledger(days, []), CostCut, p.cuts, currency, t);
    hide ChangeAll, CutCost, MoveEarlier, ReplaceItem, Fits, Distinct, IsLate;
    var l1 := ChangeAll(Ledger(days, []), CostCut, p.cuts, currency);
    var l2 := ChangeAll(l1, MovedEarlier, p.moves, currency);
    var l3 := ChangeAll(l2, RestAdded, p.rests, currency);
    ChangesKeep(l1, MovedEarlier, p.moves, currency, CostOf);
    ChangesKeep(l2, RestAdded, p.rests, currency, CostOf);
    ChangesKeep(l3, Replaced, p.replaced, currency, CostOf);
    SeenAt(l1.days, l2.days, CostOf, t);
    SeenAt(l2.days, l3.days, CostOf, t);
    SeenAt(l3.days, ChangeAll(l3, Replaced, p.replaced, currency).days, CostOf, t);
  }

  lemma SeenAt<T(!new)>(a: seq<Day>, b: seq<Day>, f: Item -> T, t: Address)
    requires Keeps(a, b, f) && InRange(a, t)
    ensures InRange(b, t) && f(b[t.d].items[t.i]) == f(a[t.d].items[t.i])
  {
  }

  lemma MovedThere(l: Ledger, moves: seq<Address>, currency: string, t: Address)
    requires Fits(l.days, MovedEarlier, moves) && Distinct(moves) && t in moves
    ensures var days := ChangeAll(l, MovedEarlier, moves, currency).days;
            InRange(l.days, t) && InRange(days, t) && !IsLate(days[t.d].items[t.i])
  {
    hide ChangeAll, MoveEarlier, Fits, Distinct, IsLate;
    TargetIsFixed(l, MovedEarlier, moves, currency, t);
    MovedItemIsNotLate(l.days[t.d].items[t.i]);
  }

  lemma MoveStays(days: seq<Day>, p: Plan, currency: string, t: Address)
    requires PlanFits(days, p, currency) && t in p.moves
    ensures var after := Carried(days, p, currency).days;
            && InRange(days, t) && InRange(after, t)
            && IsLate(days[t.d].items[t.i]) && !IsLate(after[t.d].items[t.i])
  {
    hide ChangeAll, MoveEarlier, Fits, Distinct, IsLate, Fixed, Keeps;
    LaterChangesKeep(currency);
    var l1 := ChangeAll(Ledger(days, []), CostCut, p.cuts, currency);
    var l2 := ChangeAll(l1, MovedEarlier, p.moves, currency);
    var l3 := ChangeAll(l2, RestAdded, p.rests, currency);
    MovedThere(l1, p.moves, currency, t);
    ChangesKeep(l2, RestAdded, p.rests, currency, IsLate);
    ChangesKeep(l3, Replaced, p.replaced, currency, IsLate);
    SeenAt(l2.days, l3.days, IsLate, t);
    SeenAt(l3.days, ChangeAll(l3, Replaced, p.replaced, currency).days, IsLate, t);
  }

  lemma RestStays(days: seq<Day>, p: Plan, currency: string, t: Address)
    requires PlanFits(days, p, currency) && t in p.rests
    ensures var after := Carried(days, p, currency).days;
            |after| == |days| && t.d < |days| && |after[t.d].items| > |days[t.d].items|
  {
    hide ChangeAll, Fits, Distinct;
    var l1 := ChangeAll(Ledger(days, []), CostCut, p.cuts, currency);
    var l2 := ChangeAll(l1, MovedEarlier, p.moves, currency);
    var l3 := ChangeAll(l2, RestAdded, p.rests, currency);
    ShapeOfChanges(Ledger(days, []), CostCut, p.cuts, currency);
    ShapeOfChanges(l1, MovedEarlier, p.moves, currency);
    RestGrows(l2, p.rests, currency, t);
    ShapeOfChanges(l3, Replaced, p.replaced, currency);
  }

  lemma ReplacementStays(days: seq<Day>, p: Plan, currency: string, t: Address)
    requires PlanFits(days, p, currency) && t in p.replaced
    ensures var after := Carried(days, p, currency).days;
            InRange(after, t) && after[t.d].items[t.i].kind == "activity"
  {
    hide ChangeAll, Fits, Distinct;
    var l1 := ChangeAll(Ledger(days, []), CostCut, p.cuts, currency);
    var l2 := ChangeAll(l1, MovedEarlier, p.moves, currency);
    ReplacedIsActivity(ChangeAll(l2, RestAdded, p.rests, currency), p.replaced, currency, t);
  }
}
