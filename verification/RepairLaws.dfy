/** What `repair_itinerary` promises about every run: bounded changes, conserved items, a kept shape. */
module RepairLaws {
  import opened Sequences
  import opened Itinerary
  import opened Repair
  import opened RepairPlan

  // ---------- shape ----------

  /** The day keeps its header, every item its place, leg and duration; items may only be appended. */
  ghost predicate DayExtends(before: Day, after: Day) {
    && after.(items := []) == before.(items := [])
    && |before.items| <= |after.items|
    && forall i :: 0 <= i < |before.items| ==>
         after.items[i].leg == before.items[i].leg && after.items[i].duration == before.items[i].duration
  }

  ghost predicate Extends(before: seq<Day>, after: seq<Day>) {
    |before| == |after| && forall d :: 0 <= d < |before| ==> DayExtends(before[d], after[d])
  }

  function ItemCount(day: Day): nat {
    |day.items|
  }

  /** The response parser's own check on a repaired itinerary. */
  predicate KeepsDates(original: seq<Day>, repaired: seq<Day>) {
    && |repaired| == |original|
    && forall d :: 0 <= d < |original| ==> DayNumber(original[d]) == DayNumber(repaired[d])
  }

  // ---------- one invariant for the whole run ----------

  /** The changes made so far conserve the items and keep the shape. */
  ghost predicate Accounted(days: seq<Day>, l: Ledger) {
    && Extends(days, l.days)
    && Total(l.days, ItemCount) == Total(days, ItemCount) + Count(l.changes, IsAdded)
  }

  lemma ExtendsChange(before: seq<Day>, days: seq<Day>, kind: Kind, at: Address, currency: string)
    requires Extends(before, days) && Applies(days, kind, at)
    ensures Extends(before, Changed(days, kind, at, currency))
  {
    var after := Changed(days, kind, at, currency);
    ChangedDayExtends(days, kind, at, currency);
    hide Fixed, RestBlock, Changed, DayExtends;
    DayExtendsTransitive(before[at.d], days[at.d], after[at.d]);
  }

  lemma ChangedDayExtends(days: seq<Day>, kind: Kind, at: Address, currency: string)
    requires Applies(days, kind, at)
    ensures var after := Changed(days, kind, at, currency);
            && |after| == |days| && DayExtends(days[at.d], after[at.d])
            && forall d :: 0 <= d < |days| && d != at.d ==> after[d] == days[d]
  {
    hide Fixed, RestBlock, DayExtends;
    var day := days[at.d];
    if kind == RestAdded {
      AppendExtends(day, RestBlock(currency));
    } else {
      FixedKeeps(day.items[at.i], kind, currency);
      RewriteExtends(day, at.i, Fixed(day.items[at.i], kind, currency));
    }
  }

  lemma AppendExtends(day: Day, item: Item)
    ensures DayExtends(day, day.(items := day.items + [item]))
  {
  }

  lemma RewriteExtends(day: Day, i: nat, item: Item)
    requires i < |day.items| && item.leg == day.items[i].leg && item.duration == day.items[i].duration
    ensures DayExtends(day, day.(items := day.items[i := item]))
  {
  }

  lemma DayExtendsTransitive(a: Day, b: Day, c: Day)
    requires DayExtends(a, b) && DayExtends(b, c)
    ensures DayExtends(a, c)
  {
  }

  lemma FixedKeeps(item: Item, kind: Kind, currency: string)
    ensures Fixed(item, kind, currency).leg == item.leg && Fixed(item, kind, currency).duration == item.duration
  {
  }

  lemma ExtendsKeepsNumbers(before: seq<Day>, after: seq<Day>)
    requires Extends(before, after)
    ensures KeepsDates(before, after)
  {
    forall d | 0 <= d < |before|
      ensures DayNumber(after[d]) == DayNumber(before[d])
    {
      assert DayExtends(before[d], after[d]);
    }
  }

  lemma ItemsCountedAt(l: Ledger, kind: Kind, at: Address, currency: string)
    requires Applies(l.days, kind, at)
    ensures var after := ChangeAt(l, kind, at, currency);
            Total(after.days, ItemCount) + Count(l.changes, IsAdded) == Total(l.days, ItemCount) + Count(after.changes, IsAdded)
  {
    hide Fixed, RestBlock;
    var days, c := Changed(l.days, kind, at, currency), Logged(l.days, kind, at, currency);
    TotalUpdate(l.days, at.d, days[at.d], ItemCount);
    CountConcat(l.changes, [c], IsAdded);
  }

  lemma {:induction false} AccountedChangeAll(
      days: seq<Day>, l: Ledger, kind: Kind, targets: seq<Address>, currency: string)
    requires Accounted(days, l)
    ensures Accounted(days, ChangeAll(l, kind, targets, currency))
  {
    if targets != [] {
      var n := |targets| - 1;
      AccountedChangeAll(days, l, kind, targets[..n], currency);
      var before := ChangeAll(l, kind, targets[..n], currency);
      hide Extends, Logged, Changed;
      if Applies(before.days, kind, targets[n]) {
        ExtendsChange(days, before.days, kind, targets[n], currency);
        ItemsCountedAt(before, kind, targets[n], currency);
      }
    }
  }

  lemma {:induction false} TotalSame(a: seq<Day>, b: seq<Day>)
    requires |a| == |b| && forall d :: 0 <= d < |a| ==> |a[d].items| == |b[d].items|
    ensures Total(a, ItemCount) == Total(b, ItemCount)
  {
    if a != [] {
      TotalSame(a[1..], b[1..]);
    }
  }

  lemma AccountedUnderNotes(days: seq<Day>, l: Ledger, noted: Ledger)
    requires Accounted(days, l) && SameButNotes(l.days, noted.days) && noted.changes == l.changes
    ensures Accounted(days, noted)
  {
    forall d | 0 <= d < |days|
      ensures DayExtends(days[d], noted.days[d])
    {
      assert DayExtends(days[d], l.days[d]) && l.days[d].(items := []) == noted.days[d].(items := []);
      forall i | 0 <= i < |l.days[d].items|
        ensures noted.days[d].items[i].leg == l.days[d].items[i].leg
        ensures noted.days[d].items[i].duration == l.days[d].items[i].duration
      {
        assert l.days[d].items[i].(note := "") == noted.days[d].items[i].(note := "");
      }
    }
    TotalSame(l.days, noted.days);
  }

  lemma PlanIsWithinLimit(request: Request)
    ensures Size(PlanOf(request)) <= MaxChanges(request)
  {
    hide BudgetTargets, LateTargets, RestTargets, LocateAll, Grown, Mentions, AffectedPairs;
  }

  /** Every run, in every mode: at most `maxChangedItems` changes; days, places and what they say of legs and
      durations kept; no item lost, one gained per logged addition. */
  lemma RunIsAccounted(request: Request)
    ensures var run := Repaired(request);
            && |run.changes| <= MaxChanges(request) && Extends(request.days, run.days)
            && Total(run.days, ItemCount) == Total(request.days, ItemCount) + Count(run.changes, IsAdded)
  {
    var days, p, currency := request.days, PlanOf(request), request.currency;
    RunIsPlanned(request);
    PlanIsWithinLimit(request);
    var l0 := Ledger(days, []);
    assert Accounted(days, l0);
    hide PlanOf, ChangeAll, Repaired, SameButNotes, Extends;
    var l1 := ChangeAll(l0, CostCut, p.cuts, currency);
    AccountedChangeAll(days, l0, CostCut, p.cuts, currency);
    var l2 := ChangeAll(l1, MovedEarlier, p.moves, currency);
    AccountedChangeAll(days, l1, MovedEarlier, p.moves, currency);
    var l3 := ChangeAll(l2, RestAdded, p.rests, currency);
    AccountedChangeAll(days, l2, RestAdded, p.rests, currency);
    AccountedChangeAll(days, l3, Replaced, p.replaced, currency);
    AccountedUnderNotes(days, Carried(days, p, currency), Repaired(request));
  }

  /** The parser's date-preservation check accepts every repaired itinerary. */
  lemma ParserAcceptsRepair(request: Request)
    ensures KeepsDates(request.days, Repaired(request).days)
  {
    RunIsAccounted(request);
    ExtendsKeepsNumbers(request.days, Repaired(request).days);
  }

  /** Changed, added and moved (none is removed) make up the whole log. */
  lemma {:induction false} CountsAddUp(changes: seq<Change>)
    ensures Count(changes, IsChanged) + Count(changes, IsAdded) + Count(changes, IsMoved) == |changes|
  {
    if changes != [] {
      CountsAddUp(changes[1..]);
    }
  }
}
