/** What `repair_itinerary` does to the cost of an itinerary. */
module RepairCost {
  import opened Wrappers
  import opened Sequences
  import opened Itinerary
  import opened Repair
  import opened RepairPlan

  // ---------- what a total adds up ----------

  /** What an item adds to a total in `currency`: its amount, unless that is below zero or under another currency. */
  ghost predicate AddsTo(item: Item, currency: string, cents: real) {
    match item.cost
    case NoCost => cents == 0.0
    case Bare(amount) => cents == if amount < 0.0 then 0.0 else amount
    case Priced(amount, entry, _) =>
      cents == if amount.None? || amount.value < 0.0 then 0.0
               else if entry == NoCurrency || entry == Code(currency) || entry == Untidy(currency) then amount.value
               else if entry == BlankCurrency && currency == "" then amount.value
               else 0.0
  }

  /** Item by item, day by day. */
  ghost predicate AddsUp(days: seq<Day>, currency: string, total: real)
    decreases |days|, if days == [] then 0 else |days[0].items|
  {
    if days == [] then total == 0.0
    else if days[0].items == [] then AddsUp(days[1..], currency, total)
    else
      exists cents :: AddsTo(days[0].items[0], currency, cents)
                      && AddsUp(days[0 := days[0].(items := days[0].items[1..])], currency, total - cents)
  }

  lemma CountedAdds(item: Item, currency: string)
    ensures AddsTo(item, currency, Counted(currency, item))
  {
  }

  lemma {:induction false} TotalAddsUp(days: seq<Day>, currency: string)
    ensures AddsUp(days, currency, TotalCost(days, currency))
    decreases |days|, if days == [] then 0 else |days[0].items|
  {
    hide Counted, AddsTo;
    if days != [] {
      if days[0].items == [] {
        TotalAddsUp(days[1..], currency);
      } else {
        var rest := days[0 := days[0].(items := days[0].items[1..])];
        TotalAddsUp(rest, currency);
        CountedAdds(days[0].items[0], currency);
        assert rest[1..] == days[1..];
      }
    }
  }

  /** A reported total is the whole number of cents nearest to what the items add up to, the even one of two. */
  lemma ReportedIsTotal(days: seq<Day>, currency: string)
    ensures exists total ::
              && AddsUp(days, currency, total)
              && var cents := ReportedTotal(days, currency);
                 && total - 0.5 <= cents as real <= total + 0.5
                 && (cents as real == total + 0.5 || cents as real == total - 0.5 ==> cents % 2 == 0)
  {
    TotalAddsUp(days, currency);
    hide TotalCost, AddsUp;
    assert AddsUp(days, currency, TotalCost(days, currency));
  }

  // ---------- one cut ----------

  /** Cutting this item cannot raise a total in `currency`: it has no amount, counts in another currency
      afterwards, is cut to nothing, or is at least a cent and counted in `currency` all along. */
  predicate CutIsSafe(item: Item, currency: string) {
    match Amount(item)
    case None => true
    case Some(cents) =>
      || WrittenCode(item, currency) != currency
      || cents * 7.0 <= 5.0
      || (cents >= 1.0 && CurrencyOf(item, currency) == currency)
  }

  /** Exactly the safe cuts leave an item counting for no more than before. */
  lemma CutNeverRaises(item: Item, currency: string)
    ensures Counted(currency, CutCost(item, currency)) <= Counted(currency, item) <==> CutIsSafe(item, currency)
  {
    hide MarkedName, AppendNote;
    if Amount(item).Some? {
      var cents := Amount(item).value;
      ReducedIsWhole(cents);
      ReductionVanishes(cents);
      if cents > 0.0 {
        ReductionRaisesOnlySubCents(cents);
      }
    }
    hide Reduced;
  }

  lemma ReducedIsWhole(cents: real)
    ensures Reduced(cents) == Reduced(cents).Floor as real && Reduced(cents) >= 0.0
    ensures cents <= 0.0 ==> Reduced(cents) == 0.0
  {
    RoundHalfEvenIsNearest(cents * 0.7);
  }

  const MISPRICED := Item("10:00", None, "food", "Lunch", "", Priced(Some(10000.0), BlankCurrency, true), None, None)

  /** A cost of 100 under a blank currency counts for nothing, and for 70 EUR once it is cut. */
  lemma BlankCurrencyCutRaises()
    ensures Counted("EUR", MISPRICED) == 0.0 && Counted("EUR", CutCost(MISPRICED, "EUR")) == 7000.0
  {
    hide MarkedName, AppendNote, Reduced;
    SeventyOfHundred();
  }

  /** What cutting the item at an address takes off a total in `currency`; negative when the cut adds to it. */
  function Gain(days: seq<Day>, currency: string): Address -> real {
    (at: Address) =>
      if at.d < |days| && at.i < |days[at.d].items|
      then Counted(currency, days[at.d].items[at.i]) - Counted(currency, CutCost(days[at.d].items[at.i], currency))
      else 0.0
  }

  lemma CostAfterItem(days: seq<Day>, d: nat, i: nat, item: Item, currency: string)
    requires d < |days| && i < |days[d].items|
    ensures TotalCost(WithItems(days, d, days[d].items[i := item]), currency)
         == TotalCost(days, currency) - Counted(currency, days[d].items[i]) + Counted(currency, item)
  {
    var day := days[d].(items := days[d].items[i := item]);
    SumUpdate(days[d].items, i, item, CountedIn(currency));
    SumUpdate(days, d, day, DayCost(currency));
  }

  lemma CostAfterAppend(days: seq<Day>, d: nat, item: Item, currency: string)
    requires d < |days|
    ensures TotalCost(WithItems(days, d, days[d].items + [item]), currency)
         == TotalCost(days, currency) + Counted(currency, item)
  {
    var day := days[d].(items := days[d].items + [item]);
    SumConcat(days[d].items, [item], CountedIn(currency));
    SumOfOne(item, CountedIn(currency));
    SumUpdate(days, d, day, DayCost(currency));
  }

  lemma SumOfOne(item: Item, f: Item -> real)
    ensures Sum([item], f) == f(item)
  {
  }

  lemma OthersCountTheSame(item: Item, kind: Kind, currency: string)
    requires kind != CostCut
    ensures Counted(currency, Fixed(item, kind, currency)) == Counted(currency, item)
    ensures Counted(currency, RestBlock(currency)) == 0.0
  {
    hide MarkedName, AppendNote;
  }

  /** A change of any kind moves the total by the gain of a cut, and by nothing otherwise. */
  lemma CostAfterChange(days: seq<Day>, kind: Kind, at: Address, currency: string)
    requires Applies(days, kind, at)
    ensures TotalCost(Changed(days, kind, at, currency), currency)
         == TotalCost(days, currency) - (if kind == CostCut then Gain(days, currency)(at) else 0.0)
  {
    hide TotalCost, CutCost, MoveEarlier, ReplaceItem, RestBlock, Counted;
    if kind == RestAdded {
      OthersCountTheSame(RestBlock(currency), kind, currency);
      CostAfterAppend(days, at.d, RestBlock(currency), currency);
    } else {
      var item := days[at.d].items[at.i];
      if kind != CostCut {
        OthersCountTheSame(item, kind, currency);
      }
      CostAfterItem(days, at.d, at.i, Fixed(item, kind, currency), currency);
    }
  }

  lemma {:induction false} CutsAddUp(l: Ledger, targets: seq<Address>, currency: string)
    requires Distinct(targets) && forall t :: t in targets ==> Applies(l.days, CostCut, t)
    ensures TotalCost(ChangeAll(l, CostCut, targets, currency).days, currency)
         == TotalCost(l.days, currency) - Sum(targets, Gain(l.days, currency))
  {
    if targets != [] {
      var n := |targets| - 1;
      var at, front := targets[n], targets[..n];
      assert targets == front + [at];
      hide Changed, TotalCost, Gain;
      assert at in targets && forall t :: t in front ==> t in targets;
      CutsAddUp(l, front, currency);
      var before := ChangeAll(l, CostCut, front, currency).days;
      assert at !in front;
      ChangeAllOtherItem(l, CostCut, front, currency, at.d, at.i);
      CostAfterChange(before, CostCut, at, currency);
      SameGain(l.days, before, at, currency);
      SumConcat(front, [at], Gain(l.days, currency));
      SumOfOneGain(l.days, at, currency);
    }
  }

  lemma SameGain(days: seq<Day>, now: seq<Day>, at: Address, currency: string)
    requires Applies(days, CostCut, at) && Applies(now, CostCut, at)
    requires now[at.d].items[at.i] == days[at.d].items[at.i]
    ensures Gain(now, currency)(at) == Gain(days, currency)(at)
  {
    hide Counted, CutCost;
  }

  lemma SumOfOneGain(days: seq<Day>, at: Address, currency: string)
    ensures Sum([at], Gain(days, currency)) == Gain(days, currency)(at)
  {
    hide Gain;
  }

  // ---------- the cost of a whole run ----------

  lemma {:induction false} OtherChangesAreFree(l: Ledger, kind: Kind, targets: seq<Address>, currency: string)
    requires kind != CostCut
    ensures TotalCost(ChangeAll(l, kind, targets, currency).days, currency) == TotalCost(l.days, currency)
  {
    if targets != [] {
      var n := |targets| - 1;
      OtherChangesAreFree(l, kind, targets[..n], currency);
      var before := ChangeAll(l, kind, targets[..n], currency).days;
      hide Changed, TotalCost;
      if Applies(before, kind, targets[n]) {
        CostAfterChange(before, kind, targets[n], currency);
      }
    }
  }

  lemma {:induction false} SumOfSame(a: seq<Item>, b: seq<Item>, f: Item -> real)
    requires |a| == |b| && forall i :: 0 <= i < |a| ==> f(a[i]) == f(b[i])
    ensures Sum(a, f) == Sum(b, f)
  {
    if a != [] {
      SumOfSame(a[1..], b[1..], f);
    }
  }

  lemma {:induction false} NotesAreFree(a: seq<Day>, b: seq<Day>, currency: string)
    requires SameButNotes(a, b)
    ensures TotalCost(a, currency) == TotalCost(b, currency)
  {
    if a != [] {
      forall i | 0 <= i < |a[0].items|
        ensures Counted(currency, a[0].items[i]) == Counted(currency, b[0].items[i])
      {
        assert a[0].items[i].(note := "") == b[0].items[i].(note := "");
      }
      hide Counted;
      SumOfSame(a[0].items, b[0].items, CountedIn(currency));
      NotesAreFree(a[1..], b[1..], currency);
    }
  }

  /** Where the money of any run goes: the total changes by exactly what the planned cuts take off the items they
      are made at; moving, replacing, resting and noting cost nothing. */
  lemma RunCostIsAccounted(request: Request)
    ensures TotalCost(Repaired(request).days, request.currency)
         == TotalCost(request.days, request.currency) - Sum(PlanOf(request).cuts, Gain(request.days, request.currency))
  {
    var days, p, currency := request.days, PlanOf(request), request.currency;
    RunIsPlanned(request);
    PlanFitsItsRequest(request);
    hide PlanOf, ChangeAll, TotalCost, Gain, Repaired, Fits, SameButNotes;
    NotesAreFree(Carried(days, p, currency).days, Repaired(request).days, currency);
    var l1 := ChangeAll(Ledger(days, []), CostCut, p.cuts, currency);
    CutsAddUp(Ledger(days, []), p.cuts, currency);
    var l2 := ChangeAll(l1, MovedEarlier, p.moves, currency);
    OtherChangesAreFree(l1, MovedEarlier, p.moves, currency);
    OtherChangesAreFree(l2, RestAdded, p.rests, currency);
    OtherChangesAreFree(ChangeAll(l2, RestAdded, p.rests, currency), Replaced, p.replaced, currency);
  }

  /** Every run, in every mode, whose cuts are made at safe items only: the reported total does not rise. */
  lemma RunNeverRaisesCost(request: Request)
    requires forall t :: t in PlanOf(request).cuts ==>
               InRange(request.days, t) && CutIsSafe(request.days[t.d].items[t.i], request.currency)
    ensures ReportedTotal(Repaired(request).days, request.currency) <= ReportedTotal(request.days, request.currency)
  {
    var days, cuts, currency := request.days, PlanOf(request).cuts, request.currency;
    RunCostIsAccounted(request);
    hide PlanOf, TotalCost, Counted, CutCost, CutIsSafe, Repaired;
    forall t | t in cuts
      ensures Gain(days, currency)(t) >= 0.0
    {
      CutNeverRaises(days[t.d].items[t.i], currency);
    }
    SumNonNegative(cuts, Gain(days, currency));
    RoundHalfEvenMonotone(TotalCost(Repaired(request).days, currency), TotalCost(days, currency));
  }

  // ---------- the best choice ----------

  /** The premise on money: amounts are whole cents, counted in the trip's currency. */
  ghost predicate IsPlain(item: Item, currency: string) {
    && (Amount(item).Some? ==> Amount(item).value == Amount(item).value.Floor as real)
    && CurrencyOf(item, currency) == currency
  }

  ghost predicate PlainMoney(days: seq<Day>, currency: string) {
    forall d :: 0 <= d < |days| ==> PlainDay(days[d], currency)
  }

  ghost predicate PlainDay(day: Day, currency: string) {
    forall i :: 0 <= i < |day.items| ==> IsPlain(day.items[i], currency)
  }

  lemma PlainGain(days: seq<Day>, currency: string, at: Address)
    requires PlainMoney(days, currency) && AmountAt(days, at) > 0.0
    ensures var cents := AmountAt(days, at);
            cents == cents.Floor as real && Gain(days, currency)(at) == Saving(cents.Floor) as real
  {
    assert PlainDay(days[at.d], currency) && IsPlain(days[at.d].items[at.i], currency);
    hide CutCost, Counted, Saving, IsPlain, PlainMoney;
    PlainCut(days[at.d].items[at.i], currency);
  }

  lemma PlainCut(item: Item, currency: string)
    requires IsPlain(item, currency) && Amount(item).Some? && Amount(item).value > 0.0
    ensures var cents := Amount(item).value;
            && cents == cents.Floor as real && cents.Floor >= 0
            && Counted(currency, item) - Counted(currency, CutCost(item, currency)) == Saving(cents.Floor) as real
  {
    hide MarkedName, AppendNote, Reduced, Saving;
    ReducedWhole(Amount(item).value.Floor);
    ReducedIsWhole(Amount(item).value);
  }

  lemma GainMonotone(days: seq<Day>, currency: string, a: Address, b: Address)
    requires PlainMoney(days, currency)
    requires AmountAt(days, a) >= AmountAt(days, b) > 0.0
    ensures Gain(days, currency)(a) >= Gain(days, currency)(b) >= 0.0
  {
    PlainGain(days, currency, a);
    PlainGain(days, currency, b);
    SavingMonotone(AmountAt(days, b).Floor, AmountAt(days, a).Floor);
  }

  /** The targets the budget repair gets to, when `l.changes` are made already. */
  function BudgetRoom(request: Request, l: Ledger): nat {
    Left(MaxChanges(request), |l.changes|)
  }

  lemma BudgetCutSaves(request: Request, l: Ledger)
    ensures TotalCost(BudgetCut(l, request).days, request.currency)
         == TotalCost(l.days, request.currency)
            - Sum(Take(BudgetTargets(l.days), BudgetRoom(request, l)), Gain(l.days, request.currency))
  {
    hide TotalCost, BudgetTargets, ChangeAll, Gain, Fits;
    var targets := Take(BudgetTargets(l.days), BudgetRoom(request, l));
    CutsFit(l.days, targets);
    CutsAddUp(l, targets, request.currency);
  }

  lemma RankedByGain(days: seq<Day>, currency: string)
    requires PlainMoney(days, currency)
    ensures forall i, j :: 0 <= i < j < |BudgetTargets(days)| ==>
              Gain(days, currency)(BudgetTargets(days)[i]) >= Gain(days, currency)(BudgetTargets(days)[j])
    ensures forall t :: t in BudgetTargets(days) ==> Gain(days, currency)(t) >= 0.0
  {
    var ranked := BudgetTargets(days);
    BudgetTargetsRanked(days);
    hide Gain, BudgetTargets;
    forall i, j | 0 <= i < j < |ranked|
      ensures Gain(days, currency)(ranked[i]) >= Gain(days, currency)(ranked[j])
    {
      assert ranked[i] in ranked && ranked[j] in ranked;
      GainMonotone(days, currency, ranked[i], ranked[j]);
    }
    forall t | t in ranked
      ensures Gain(days, currency)(t) >= 0.0
    {
      GainMonotone(days, currency, t, t);
    }
  }

  lemma GreedyGainsMost(days: seq<Day>, chosen: seq<Address>, room: nat, currency: string)
    requires PlainMoney(days, currency) && Distinct(chosen) && |chosen| <= room
    requires forall t :: t in chosen ==> InRange(days, t) && AmountAt(days, t) > 0.0
    ensures 0.0 <= Sum(chosen, Gain(days, currency)) <= Sum(Take(BudgetTargets(days), room), Gain(days, currency))
  {
    BudgetTargetsRanked(days);
    hide Gain, BudgetTargets;
    RankedByGain(days, currency);
    SumNonNegative(chosen, Gain(days, currency));
    GreedyIsBest(BudgetTargets(days), chosen, room, Gain(days, currency));
  }

  /** Whole cents in one currency: no choice of at most `max` costly items, cut the same way, brings the
      total lower than the budget repair does; and the repair never raises it. */
  lemma GreedyCutIsBest(request: Request, l: Ledger, chosen: seq<Address>)
    requires PlainMoney(l.days, request.currency)
    requires Distinct(chosen) && |l.changes| + |chosen| <= MaxChanges(request)
    requires forall t :: t in chosen ==> InRange(l.days, t) && AmountAt(l.days, t) > 0.0
    ensures TotalCost(BudgetCut(l, request).days, request.currency)
         <= TotalCost(ChangeAll(l, CostCut, chosen, request.currency).days, request.currency)
         <= TotalCost(l.days, request.currency)
  {
    hide Gain, BudgetTargets, TotalCost, BudgetCut, PlainMoney;
    BudgetCutSaves(request, l);
    GreedyGainsMost(l.days, chosen, BudgetRoom(request, l), request.currency);
    CutsAddUp(l, chosen, request.currency);
  }
}
