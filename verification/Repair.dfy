/** `repair_itinerary`: an itinerary changed in place under a change budget, with a log of every change. */
module Repair {
  import opened Wrappers
  import opened Text
  import opened Sequences
  import opened Itinerary

  datatype Mode =
    | PolicyCompliance
    | ReduceBudgetRisk
    | FixScheduleRisk
    | ReduceWalking
    | AddRestTime
    | ReplaceDisallowedItems
    | SelectedIssues

  function ModeName(mode: Mode): string {
    match mode
    case PolicyCompliance => "policy_compliance"
    case ReduceBudgetRisk => "reduce_budget_risk"
    case FixScheduleRisk => "fix_schedule_risk"
    case ReduceWalking => "reduce_walking"
    case AddRestTime => "add_rest_time"
    case ReplaceDisallowedItems => "replace_disallowed_items"
    case SelectedIssues => "selected_issues"
  }

  /** `selected` and `issueTypes` are already in lower case; `affected` are the issues' complete day and index pairs. */
  datatype Request = Request(
    days: seq<Day>,
    currency: string,
    mode: Mode,
    selected: seq<string>,
    issueTypes: seq<string>,
    affected: seq<(int, int)>,
    maxChangedItems: Option<nat>
  )

  /** `max_changed_items or 10`. */
  function MaxChanges(request: Request): (n: nat)
    ensures n >= 1
  {
    match request.maxChangedItems
    case Some(n) => if n == 0 then 10 else n
    case None => 10
  }

  /** The words the keyword tests look into; no keyword has a space, so joining them adds nothing. */
  function IssueWords(request: Request): seq<string> {
    [ModeName(request.mode)] + request.selected
    + (if request.selected == [] then request.issueTypes
       else Filter(request.issueTypes, (t: string) => t in request.selected))
  }

  predicate Mentions(request: Request, word: string) {
    exists i :: 0 <= i < |IssueWords(request)| && Contains(IssueWords(request)[i], word)
  }

  // ---------- single changes ----------

  datatype Kind = CostCut | MovedEarlier | RestAdded | Replaced

  datatype Change = Change(kind: Kind, day: Option<int>, index: nat, before: Option<Compact>, after: Compact)

  function CutCost(item: Item, currency: string): Item {
    match Amount(item)
    case None => item
    case Some(cents) =>
      item.(
        cost := Priced(Some(Reduced(cents)), Code(WrittenCode(item, currency)), true),
        name := MarkedName(item.name, "lower-cost"),
        note := AppendNote(item.note, "AI repair lowered this estimated cost for policy review.")
      )
  }

  function MoveEarlier(item: Item): Item {
    item.(
      time := "19:00",
      endTime := if item.endTime.Some? then Some("20:30") else None,
      note := AppendNote(item.note, "AI repair moved this earlier to reduce late-schedule risk.")
    )
  }

  function ReplaceItem(item: Item): Item {
    item.(
      kind := "activity",
      name := MarkedName(item.name, "allowed alternative"),
      note := AppendNote(item.note, "AI repair replaced a potentially disallowed item for review.")
    )
  }

  function RestBlock(currency: string): Item {
    Item("15:00", None, "rest", "AI repair rest break", "Added reviewable downtime to reduce itinerary density risk.",
         Priced(Some(0.0), Code(currency), true), None, None)
  }

  function Fixed(item: Item, kind: Kind, currency: string): Item {
    match kind
    case CostCut => CutCost(item, currency)
    case MovedEarlier => MoveEarlier(item)
    case Replaced => ReplaceItem(item)
    case RestAdded => item
  }

  /** Where a change of this kind can be made: at an item, or just past the last one. */
  predicate Applies(days: seq<Day>, kind: Kind, at: Address) {
    at.d < |days| && (if kind == RestAdded then at.i == |days[at.d].items| else at.i < |days[at.d].items|)
  }

  function Changed(days: seq<Day>, kind: Kind, at: Address, currency: string): seq<Day>
    requires Applies(days, kind, at)
  {
    var items := days[at.d].items;
    WithItems(days, at.d,
      if kind == RestAdded then items + [RestBlock(currency)]
      else items[at.i := Fixed(items[at.i], kind, currency)])
  }

  /** Whether the change rewrites the cost entry that the record of the item before it holds too. The record is
      a shallow copy: a structured cost is the item's own entry, and cutting an amount rewrites that entry in
      place. A bare number is replaced by a new entry, so its record stays. */
  predicate SharesCost(item: Item, kind: Kind) {
    kind == CostCut && item.cost.Priced?
  }

  /** The `before` a change ends up with. */
  function Recorded(item: Item, kind: Kind, currency: string): Compact {
    if SharesCost(item, kind) then CompactOf(item).(cost := Fixed(item, kind, currency).cost) else CompactOf(item)
  }

  function Logged(days: seq<Day>, kind: Kind, at: Address, currency: string): Change
    requires Applies(days, kind, at)
  {
    var day := days[at.d];
    if kind == RestAdded then Change(kind, DayNumber(day), at.i, None, CompactOf(RestBlock(currency)))
    else
      var item := day.items[at.i];
      Change(kind, DayNumber(day), at.i, Some(Recorded(item, kind, currency)), CompactOf(Fixed(item, kind, currency)))
  }

  // ---------- a change at each of a list of addresses ----------

  datatype Ledger = Ledger(days: seq<Day>, changes: seq<Change>)

  function ChangeAt(l: Ledger, kind: Kind, at: Address, currency: string): Ledger {
    if Applies(l.days, kind, at) then
      Ledger(Changed(l.days, kind, at, currency), l.changes + [Logged(l.days, kind, at, currency)])
    else l
  }

  function ChangeAll(l: Ledger, kind: Kind, targets: seq<Address>, currency: string): Ledger {
    if targets == [] then l
    else
      var n := |targets| - 1;
      ChangeAt(ChangeAll(l, kind, targets[..n], currency), kind, targets[n], currency)
  }

  /** As many of the targets as the change budget still allows. */
  function ChangeSome(l: Ledger, kind: Kind, targets: seq<Address>, max: nat, currency: string): Ledger {
    ChangeAll(l, kind, Take(targets, if |l.changes| < max then max - |l.changes| else 0), currency)
  }

  // ---------- what each operation aims at ----------

  function CostsSomething(days: seq<Day>): Address -> bool {
    (at: Address) => AmountAt(days, at) > 0.0
  }

  function BudgetTargets(days: seq<Day>): seq<Address> {
    Filter(ByCostDescending(days), CostsSomething(days))
  }

  function LateTargets(days: seq<Day>): seq<Address> {
    Select(days, IsLate, 0, 0)
  }

  predicate HasRest(day: Day) {
    Count(day.items, IsRest) > 0
  }

  function RestTargets(days: seq<Day>, d: nat): seq<Address>
    decreases |days| - d
  {
    if d >= |days| then []
    else (if HasRest(days[d]) then [] else [At(d, |days[d].items|)]) + RestTargets(days, d + 1)
  }

  /** `_affected_targets`: the issues' own pairs, else the first item of the first numbered day that has items. */
  function AffectedPairs(request: Request): seq<(int, int)> {
    if request.affected != [] then request.affected else FirstItem(request.days)
  }

  function FirstItem(days: seq<Day>): seq<(int, int)> {
    if days == [] then []
    else if days[0].items != [] && DayNumber(days[0]).Some? then [(DayNumber(days[0]).value, 0)]
    else FirstItem(days[1..])
  }

  function LocateAll(days: seq<Day>, pairs: seq<(int, int)>): seq<Address> {
    if pairs == [] then []
    else
      (match Locate(days, pairs[0].0, pairs[0].1, 0) case None => [] case Some(at) => [at])
      + LocateAll(days, pairs[1..])
  }

  // ---------- the operations and the run, as functions ----------

  function BudgetCut(l: Ledger, request: Request): Ledger {
    ChangeSome(l, CostCut, BudgetTargets(l.days), MaxChanges(request), request.currency)
  }

  function LateItemsMoved(l: Ledger, request: Request): Ledger {
    ChangeSome(l, MovedEarlier, LateTargets(l.days), MaxChanges(request), request.currency)
  }

  function RestBlocksAdded(l: Ledger, request: Request): Ledger {
    ChangeSome(l, RestAdded, RestTargets(l.days, 0), MaxChanges(request), request.currency)
  }

  function DisallowedReplaced(l: Ledger, request: Request): Ledger {
    ChangeSome(l, Replaced, LocateAll(l.days, AffectedPairs(request)), MaxChanges(request), request.currency)
  }

  /** `_add_repair_warning_note`: on the first item of the first day that has one. */
  function WarningNote(days: seq<Day>): seq<Day> {
    if days == [] then []
    else if days[0].items == [] then [days[0]] + WarningNote(days[1..])
    else
      var item := days[0].items[0];
      var noted := item.(note := AppendNote(item.note, "AI repair reviewed walking risk; verify routes."));
      WithItems(days, 0, days[0].items[0 := noted])
  }

  predicate WantsBudget(request: Request) {
    request.mode in {PolicyCompliance, ReduceBudgetRisk} || Mentions(request, "budget")
  }

  predicate WantsLate(request: Request) {
    request.mode in {PolicyCompliance, FixScheduleRisk} || Mentions(request, "late")
  }

  predicate WantsRest(request: Request) {
    request.mode in {PolicyCompliance, AddRestTime} || Mentions(request, "rest")
  }

  predicate WantsReplacement(request: Request) {
    request.mode in {PolicyCompliance, ReplaceDisallowedItems} || Mentions(request, "disallowed")
  }

  /** The four operations the mode and the issues call for. */
  function Requested(request: Request): Ledger {
    var l0 := Ledger(request.days, []);
    var l1 := if WantsBudget(request) then BudgetCut(l0, request) else l0;
    var l2 := if WantsLate(request) then LateItemsMoved(l1, request) else l1;
    var l3 := if WantsRest(request) then RestBlocksAdded(l2, request) else l2;
    if WantsReplacement(request) then DisallowedReplaced(l3, request) else l3
  }

  /** ... then the walking note, and the fallbacks when nothing was changed. */
  function Repaired(request: Request): Ledger {
    var l4 := Requested(request);
    var l5 := if request.mode == ReduceWalking then l4.(days := WarningNote(l4.days)) else l4;
    var l6 := if l5.changes == [] && request.mode == SelectedIssues then BudgetCut(l5, request) else l5;
    if l6.changes == [] then RestBlocksAdded(l6, request) else l6
  }

  datatype Summary = Summary(changed: nat, added: nat, removed: nat, moved: nat, costBefore: int, costAfter: int)

  predicate IsChanged(c: Change) {
    c.kind in {CostCut, Replaced}
  }

  predicate IsAdded(c: Change) {
    c.kind == RestAdded
  }

  predicate IsMoved(c: Change) {
    c.kind == MovedEarlier
  }

  // ---------- facts the loops need ----------

  lemma ChangeAllSnoc(l: Ledger, kind: Kind, targets: seq<Address>, at: Address, currency: string)
    ensures ChangeAll(l, kind, targets + [at], currency) == ChangeAt(ChangeAll(l, kind, targets, currency), kind, at, currency)
  {
    assert (targets + [at])[..|targets|] == targets;
  }

  lemma {:induction false} ChangeAllLength(l: Ledger, kind: Kind, targets: seq<Address>, currency: string)
    ensures |ChangeAll(l, kind, targets, currency).days| == |l.days|
  {
    if targets != [] {
      ChangeAllLength(l, kind, targets[..|targets| - 1], currency);
    }
  }

  /** One change leaves the other days as they are, and of its own day the header and the other items. */
  lemma ChangeAtEffect(l: Ledger, kind: Kind, at: Address, currency: string)
    ensures var days := ChangeAt(l, kind, at, currency).days;
            && |days| == |l.days|
            && (forall d :: 0 <= d < |l.days| && d != at.d ==> days[d] == l.days[d])
            && (at.d < |l.days| ==> SameButFor(l.days[at.d], days[at.d], kind, at.i))
  {
    hide Fixed, RestBlock;
  }

  ghost predicate SameButFor(before: Day, after: Day, kind: Kind, index: nat) {
    && after.(items := []) == before.(items := [])
    && |before.items| <= |after.items|
    && (kind != RestAdded ==> |after.items| == |before.items|)
    && forall i :: 0 <= i < |before.items| && (kind == RestAdded || i != index) ==> after.items[i] == before.items[i]
  }

  /** A day without a target is untouched. */
  lemma {:induction false} ChangeAllOtherDay(l: Ledger, kind: Kind, targets: seq<Address>, currency: string, d: nat)
    requires d < |l.days| && forall t :: t in targets ==> t.d != d
    ensures var days := ChangeAll(l, kind, targets, currency).days;
            |days| == |l.days| && days[d] == l.days[d]
  {
    if targets != [] {
      var n := |targets| - 1;
      assert targets[n] in targets && forall t :: t in targets[..n] ==> t in targets;
      ChangeAllOtherDay(l, kind, targets[..n], currency, d);
      ChangeAtEffect(ChangeAll(l, kind, targets[..n], currency), kind, targets[n], currency);
      hide ChangeAt, SameButFor;
    }
  }

  /** An item that is no target is untouched. */
  lemma {:induction false} ChangeAllOtherItem(
      l: Ledger, kind: Kind, targets: seq<Address>, currency: string, d: nat, i: nat)
    requires d < |l.days| && i < |l.days[d].items|
    requires kind == RestAdded || At(d, i) !in targets
    ensures var days := ChangeAll(l, kind, targets, currency).days;
            && |days| == |l.days| && i < |days[d].items| && days[d].items[i] == l.days[d].items[i]
  {
    if targets != [] {
      var n := |targets| - 1;
      assert targets[n] in targets && forall t :: t in targets[..n] ==> t in targets;
      ChangeAllOtherItem(l, kind, targets[..n], currency, d, i);
      ChangeAtEffect(ChangeAll(l, kind, targets[..n], currency), kind, targets[n], currency);
      hide ChangeAt;
    }
  }

  lemma {:induction false} ChangeAllSizes(l: Ledger, kind: Kind, targets: seq<Address>, currency: string, d: nat)
    requires d < |l.days| && kind != RestAdded
    ensures var days := ChangeAll(l, kind, targets, currency).days;
            |days| == |l.days| && |days[d].items| == |l.days[d].items|
  {
    if targets != [] {
      var n := |targets| - 1;
      ChangeAllSizes(l, kind, targets[..n], currency, d);
      ChangeAtEffect(ChangeAll(l, kind, targets[..n], currency), kind, targets[n], currency);
      hide ChangeAt;
    }
  }

  // ---------- the running repair ----------

  /** The itinerary copy and the change list that the operations share. */
  class ItineraryRepair {
    var days: seq<Day>
    var changes: seq<Change>
    const request: Request

    ghost function State(): Ledger
      reads this
    {
      Ledger(days, changes)
    }

    constructor (request: Request)
      ensures this.request == request && State() == Ledger(request.days, [])
    {
      this.request := request;
      days, changes := request.days, [];
    }

    /** The body of every operation: change one item or append one, and log it. */
    method Edit(kind: Kind, d: nat, i: nat)
      requires Applies(days, kind, At(d, i))
      modifies this
      ensures State() == ChangeAt(old(State()), kind, At(d, i), request.currency)
      ensures |days| == |old(days)|
      ensures kind != RestAdded ==> |days[d].items| == |old(days)[d].items|
    {
      var day := days[d];
      var before: Option<Compact> := None;
      var item := RestBlock(request.currency);
      var items := day.items;
      if kind == RestAdded {
        items := items + [item];
      } else {
        var record := CompactOf(items[i]);
        item := Fixed(items[i], kind, request.currency);
        if SharesCost(items[i], kind) {
          record := record.(cost := item.cost);
        }
        before := Some(record);
        items := items[i := item];
      }
      days := days[d := day.(items := items)];
      changes := changes + [Change(kind, DayNumber(day), i, before, CompactOf(item))];
    }

    method ChangeBudget()
      modifies this
      ensures State() == BudgetCut(old(State()), request)
    {
      hide ChangeAll, ChangeAt, InProgress, Select, RestTargets, Filter, LocateAll;
      var max := MaxChanges(request);
      var refs := ByCostDescending(days);
      ghost var start, pays := State(), CostsSomething(days);
      ghost var done: seq<Address> := [];
      ghost var all := BudgetTargets(days);
      ByCostMembers(days);
      Starting(start, CostCut, all, max, request.currency);
      for k := 0 to |refs|
        invariant InProgress(start, CostCut, done, Filter(refs[k..], pays), all, State(), max, request.currency)
        invariant forall t :: t in done ==> t in refs[..k]
      {
        if |changes| >= max {
          Stopped(start, CostCut, done, Filter(refs[k..], pays), all, State(), max, request.currency);
          return;
        }
        var at := refs[k];
        NextRef(refs, k, pays);
        ghost var rest := Filter(refs[k + 1..], pays);
        StillThere(start, CostCut, done, Filter(refs[k..], pays), all, State(), max, request.currency, at);
        PaysAt(start.days, at);
        var amount := Amount(days[at.d].items[at.i]);
        if amount.None? || amount.value <= 0.0 {
          continue;
        }
        Progressed(start, CostCut, done, at, rest, all, State(), max, request.currency);
        Edit(CostCut, at.d, at.i);
        done := done + [at];
      }
      assert Filter(refs[|refs|..], pays) == [] by { NoRefs(refs[|refs|..], pays); }
      Stopped(start, CostCut, done, [], all, State(), max, request.currency);
    }

    method ChangeLateItems()
      modifies this
      ensures State() == LateItemsMoved(old(State()), request)
    {
      hide ChangeAll, ChangeAt, InProgress, Select, RestTargets, Filter, LocateAll;
      var max := MaxChanges(request);
      ghost var start := State();
      ghost var done: seq<Address> := [];
      ghost var all := LateTargets(days);
      Starting(start, MovedEarlier, all, max, request.currency);
      for d := 0 to |days|
        invariant |days| == |start.days|
        invariant InProgress(start, MovedEarlier, done, Select(start.days, IsLate, d, 0), all, State(), max, request.currency)
        invariant forall t :: t in done ==> Before(t, d, 0)
      {
        SameSize(start, MovedEarlier, done, Select(start.days, IsLate, d, 0), all, State(), max, request.currency, d);
        for i := 0 to |days[d].items|
          invariant |days| == |start.days| && |days[d].items| == |start.days[d].items|
          invariant InProgress(start, MovedEarlier, done, Select(start.days, IsLate, d, i), all, State(), max, request.currency)
          invariant forall t :: t in done ==> Before(t, d, i)
        {
          if |changes| >= max {
            Stopped(start, MovedEarlier, done, Select(start.days, IsLate, d, i), all, State(), max, request.currency);
            return;
          }
          StillThere(start, MovedEarlier, done, Select(start.days, IsLate, d, i), all, State(), max, request.currency, At(d, i));
          NextItem(start.days, IsLate, d, i);
          if !IsLate(days[d].items[i]) {
            continue;
          }
          Progressed(start, MovedEarlier, done, At(d, i), Select(start.days, IsLate, d, i + 1), all, State(), max, request.currency);
          Edit(MovedEarlier, d, i);
          done := done + [At(d, i)];
        }
        NextDay(start.days, IsLate, d);
      }
      Exhausted(start.days, IsLate);
      Stopped(start, MovedEarlier, done, [], all, State(), max, request.currency);
    }

    method AddRestBlocks()
      modifies this
      ensures State() == RestBlocksAdded(old(State()), request)
    {
      hide ChangeAll, ChangeAt, InProgress, Select, RestTargets, Filter, LocateAll;
      var max := MaxChanges(request);
      ghost var start := State();
      ghost var done: seq<Address> := [];
      ghost var all := RestTargets(days, 0);
      Starting(start, RestAdded, all, max, request.currency);
      for d := 0 to |days|
        invariant |days| == |start.days|
        invariant InProgress(start, RestAdded, done, RestTargets(start.days, d), all, State(), max, request.currency)
        invariant forall t :: t in done ==> t.d < d
      {
        if |changes| >= max {
          Stopped(start, RestAdded, done, RestTargets(start.days, d), all, State(), max, request.currency);
          return;
        }
        SameDay(start, RestAdded, done, RestTargets(start.days, d), all, State(), max, request.currency, d);
        NextRest(start.days, d);
        if HasRest(days[d]) {
          continue;
        }
        var at := At(d, |days[d].items|);
        Progressed(start, RestAdded, done, at, RestTargets(start.days, d + 1), all, State(), max, request.currency);
        Edit(RestAdded, at.d, at.i);
        done := done + [at];
      }
      Exhausted(start.days, IsLate);
      Stopped(start, RestAdded, done, [], all, State(), max, request.currency);
    }

    method ReplaceDisallowed()
      modifies this
      ensures State() == DisallowedReplaced(old(State()), request)
    {
      hide ChangeAll, ChangeAt, InProgress, Select, RestTargets, Filter, LocateAll, Locate;
      var max := MaxChanges(request);
      var targets := AffectedPairs(request);
      ghost var start := State();
      ghost var done: seq<Address> := [];
      ghost var all := LocateAll(days, targets);
      Starting(start, Replaced, all, max, request.currency);
      assert targets[0..] == targets;
      for k := 0 to |targets|
        invariant InProgress(start, Replaced, done, LocateAll(start.days, targets[k..]), all, State(), max, request.currency)
      {
        if |changes| >= max {
          Stopped(start, Replaced, done, LocateAll(start.days, targets[k..]), all, State(), max, request.currency);
          return;
        }
        NextPair(start.days, targets, k);
        SamePlace(start, done, LocateAll(start.days, targets[k..]), all, State(), max, request.currency, targets[k]);
        var found := Locate(days, targets[k].0, targets[k].1, 0);
        if found.None? {
          continue;
        }
        var at := found.value;
        LocateApplies(days, targets[k].0, targets[k].1, 0);
        Progressed(start, Replaced, done, at, LocateAll(start.days, targets[k + 1..]), all, State(), max, request.currency);
        Edit(Replaced, at.d, at.i);
        done := done + [at];
      }
      assert LocateAll(start.days, targets[|targets|..]) == [] by { NoPairs(start.days, targets[|targets|..]); }
      Stopped(start, Replaced, done, [], all, State(), max, request.currency);
    }

    method Run() returns (summary: Summary)
      requires State() == Ledger(request.days, [])
      modifies this
      ensures State() == Repaired(request)
      ensures summary == Summary(Count(changes, IsChanged), Count(changes, IsAdded), 0, Count(changes, IsMoved),
                                 ReportedTotal(request.days, request.currency), ReportedTotal(days, request.currency))
    {
      var costBefore := ReportedTotal(days, request.currency);
      if WantsBudget(request) {
        ChangeBudget();
      }
      if WantsLate(request) {
        ChangeLateItems();
      }
      if WantsRest(request) {
        AddRestBlocks();
      }
      if WantsReplacement(request) {
        ReplaceDisallowed();
      }
      if request.mode == ReduceWalking {
        days := WarningNote(days);
      }
      if changes == [] && request.mode == SelectedIssues {
        ChangeBudget();
      }
      if changes == [] {
        AddRestBlocks();
      }
      summary := Summary(Count(changes, IsChanged), Count(changes, IsAdded), 0, Count(changes, IsMoved),
                         costBefore, ReportedTotal(days, request.currency));
    }
  }

  /** An operation in the middle of its loop: `done` of the targets `all` are changed, `rest` are to come. */
  ghost predicate InProgress(
      start: Ledger, kind: Kind, done: seq<Address>, rest: seq<Address>, all: seq<Address>,
      now: Ledger, max: nat, currency: string)
  {
    && done + rest == all
    && |now.days| == |start.days|
    && now == ChangeAll(start, kind, done, currency)
    && |now.changes| == |start.changes| + |done|
    && (done == [] || |now.changes| <= max)
  }

  lemma Starting(start: Ledger, kind: Kind, all: seq<Address>, max: nat, currency: string)
    ensures InProgress(start, kind, [], all, all, start, max, currency)
  {
  }

  lemma Progressed(
      start: Ledger, kind: Kind, done: seq<Address>, at: Address, rest: seq<Address>, all: seq<Address>,
      now: Ledger, max: nat, currency: string)
    requires InProgress(start, kind, done, [at] + rest, all, now, max, currency)
    requires Applies(now.days, kind, at) && |now.changes| < max
    ensures InProgress(start, kind, done + [at], rest, all, ChangeAt(now, kind, at, currency), max, currency)
  {
    ChangeAllSnoc(start, kind, done, at, currency);
    OneChangeLogged(now, kind, at, currency);
    hide ChangeAll, ChangeAt, Applies;
    Regroup(done, [at], rest);
  }

  lemma OneChangeLogged(now: Ledger, kind: Kind, at: Address, currency: string)
    requires Applies(now.days, kind, at)
    ensures var after := ChangeAt(now, kind, at, currency);
            |after.changes| == |now.changes| + 1 && |after.days| == |now.days|
  {
  }

  /** The loop is left when the targets run out, or early when the changes reach the limit; either way
      the targets done are all that the budget allowed. */
  lemma Stopped(
      start: Ledger, kind: Kind, done: seq<Address>, rest: seq<Address>, all: seq<Address>,
      now: Ledger, max: nat, currency: string)
    requires InProgress(start, kind, done, rest, all, now, max, currency)
    requires rest == [] || |now.changes| >= max
    ensures now == ChangeSome(start, kind, all, max, currency)
  {
    var room := if |start.changes| < max then max - |start.changes| else 0;
    assert Take(all, room) == done;
  }

  lemma NextRef(refs: seq<Address>, k: nat, pays: Address -> bool)
    requires k < |refs| && Distinct(refs)
    ensures refs[k] in refs && refs[k] !in refs[..k] && refs[..k + 1] == refs[..k] + [refs[k]]
    ensures Filter(refs[k..], pays) ==
              if pays(refs[k]) then [refs[k]] + Filter(refs[k + 1..], pays) else Filter(refs[k + 1..], pays)
  {
    assert refs[k..][1..] == refs[k + 1..];
  }

  lemma PaysAt(days: seq<Day>, at: Address)
    requires at.d < |days| && at.i < |days[at.d].items|
    ensures var amount := Amount(days[at.d].items[at.i]);
            CostsSomething(days)(at) == (amount.Some? && amount.value > 0.0)
  {
  }

  lemma NextItem(days: seq<Day>, p: Item -> bool, d: nat, i: nat)
    requires d < |days| && i < |days[d].items|
    ensures Select(days, p, d, i) ==
              if p(days[d].items[i]) then [At(d, i)] + Select(days, p, d, i + 1) else Select(days, p, d, i + 1)
  {
  }

  lemma NextDay(days: seq<Day>, p: Item -> bool, d: nat)
    requires d < |days|
    ensures Select(days, p, d, |days[d].items|) == Select(days, p, d + 1, 0)
  {
  }

  lemma NextRest(days: seq<Day>, d: nat)
    requires d < |days|
    ensures RestTargets(days, d) ==
              if HasRest(days[d]) then RestTargets(days, d + 1)
              else [At(d, |days[d].items|)] + RestTargets(days, d + 1)
  {
  }

  lemma NextPair(days: seq<Day>, pairs: seq<(int, int)>, k: nat)
    requires k < |pairs|
    ensures LocateAll(days, pairs[k..]) ==
              match Locate(days, pairs[k].0, pairs[k].1, 0)
              case None => LocateAll(days, pairs[k + 1..])
              case Some(at) => [at] + LocateAll(days, pairs[k + 1..])
  {
    assert pairs[k..][1..] == pairs[k + 1..];
  }

  lemma NoPairs(days: seq<Day>, pairs: seq<(int, int)>)
    requires pairs == []
    ensures LocateAll(days, pairs) == []
  {
  }

  lemma NoRefs(refs: seq<Address>, pays: Address -> bool)
    requires refs == []
    ensures Filter(refs, pays) == []
  {
  }

  lemma Exhausted(days: seq<Day>, p: Item -> bool)
    ensures Select(days, p, |days|, 0) == [] && RestTargets(days, |days|) == []
  {
  }

  lemma StillThere(
      start: Ledger, kind: Kind, done: seq<Address>, rest: seq<Address>, all: seq<Address>,
      now: Ledger, max: nat, currency: string, at: Address)
    requires InProgress(start, kind, done, rest, all, now, max, currency)
    requires kind != RestAdded && at !in done && Applies(start.days, kind, at)
    ensures Applies(now.days, kind, at) && now.days[at.d].items[at.i] == start.days[at.d].items[at.i]
  {
    ChangeAllOtherItem(start, kind, done, currency, at.d, at.i);
  }

  lemma SameSize(
      start: Ledger, kind: Kind, done: seq<Address>, rest: seq<Address>, all: seq<Address>,
      now: Ledger, max: nat, currency: string, d: nat)
    requires InProgress(start, kind, done, rest, all, now, max, currency)
    requires kind != RestAdded && d < |start.days|
    ensures |now.days| == |start.days| && |now.days[d].items| == |start.days[d].items|
  {
    ChangeAllSizes(start, kind, done, currency, d);
  }

  lemma SameDay(
      start: Ledger, kind: Kind, done: seq<Address>, rest: seq<Address>, all: seq<Address>,
      now: Ledger, max: nat, currency: string, d: nat)
    requires InProgress(start, kind, done, rest, all, now, max, currency)
    requires d < |start.days| && forall t :: t in done ==> t.d < d
    ensures |now.days| == |start.days| && now.days[d] == start.days[d]
  {
    ChangeAllOtherDay(start, kind, done, currency, d);
  }

  lemma SamePlace(
      start: Ledger, done: seq<Address>, rest: seq<Address>, all: seq<Address>,
      now: Ledger, max: nat, currency: string, pair: (int, int))
    requires InProgress(start, Replaced, done, rest, all, now, max, currency)
    ensures Locate(now.days, pair.0, pair.1, 0) == Locate(start.days, pair.0, pair.1, 0)
  {
    LocateAfterReplacing(start, done, currency, pair.0, pair.1, 0);
  }

  lemma LocateApplies(days: seq<Day>, number: int, index: int, d: nat)
    ensures match Locate(days, number, index, d)
            case None => true
            case Some(at) => Applies(days, Replaced, at) && DayNumber(days[at.d]) == Some(number) && at.i == index
    decreases |days| - d
  {
  }

  lemma {:induction false} ChangeAllNumbers(l: Ledger, kind: Kind, targets: seq<Address>, currency: string, d: nat)
    requires d < |l.days|
    ensures var days := ChangeAll(l, kind, targets, currency).days;
            |days| == |l.days| && days[d].(items := []) == l.days[d].(items := [])
  {
    if targets != [] {
      var n := |targets| - 1;
      ChangeAllNumbers(l, kind, targets[..n], currency, d);
      ChangeAtEffect(ChangeAll(l, kind, targets[..n], currency), kind, targets[n], currency);
      hide ChangeAt;
    }
  }

  lemma {:induction false} LocateAfterReplacing(
      l: Ledger, targets: seq<Address>, currency: string, number: int, index: int, d: nat)
    ensures Locate(ChangeAll(l, Replaced, targets, currency).days, number, index, d) == Locate(l.days, number, index, d)
    decreases |l.days| - d
  {
    ChangeAllLength(l, Replaced, targets, currency);
    if d < |l.days| {
      ChangeAllNumbers(l, Replaced, targets, currency, d);
      ChangeAllSizes(l, Replaced, targets, currency, d);
      LocateAfterReplacing(l, targets, currency, number, index, d + 1);
    }
  }
}
