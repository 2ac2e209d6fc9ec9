/** What the sanitizer reports, and in which order: one path for every outermost sensitive key and one warning for
    every code that a kept text yields, in reading order; each warning once. */
module PrivacyReports {
  import opened Sequences
  import opened Privacy
  import opened PrivacyLaws

  // ---------- ways into a payload ----------

  datatype Goal = Sensitive | Kept(text: string)

  datatype Way = Way(steps: seq<Step>, goal: Goal)

  /** The steps lead through list positions and kept entries to a text, or to an entry with a sensitive key. */
  ghost predicate Leads(v: Payload, steps: seq<Step>, goal: Goal)
    decreases steps
  {
    if steps == [] then v.Str? && goal == Goal.Kept(v.text)
    else
      match steps[0]
      case Element(k) => (v.List? || v.Tuple?) && k < |v.items| && Leads(v.items[k], steps[1..], goal)
      case Field(k) =>
        v.Object? && k < |v.entries|
        && if IsSensitiveKey(v.entries[k].key) then |steps| == 1 && goal == Sensitive
           else Leads(v.entries[k].value, steps[1..], goal)
  }

  /** Each list position adds `[]`, each entry its key behind a dot. */
  ghost function Along(v: Payload, steps: seq<Step>, path: string): string
    decreases steps
  {
    if steps == [] then path
    else
      match steps[0]
      case Element(k) => if (v.List? || v.Tuple?) && k < |v.items| then Along(v.items[k], steps[1..], path + "[]") else path
      case Field(k) =>
        if v.Object? && k < |v.entries| then
          Along(v.entries[k].value, steps[1..], if path == "" then v.entries[k].key else path + "." + v.entries[k].key)
        else path
  }

  function Place(step: Step): nat {
    step.index
  }

  /** Where the two part, the first takes the earlier place. */
  ghost predicate Earlier(a: seq<Step>, b: seq<Step>) {
    exists n: nat :: PartsAt(a, b, n)
  }

  ghost predicate PartsAt(a: seq<Step>, b: seq<Step>, n: nat) {
    n < |a| && n < |b| && a[..n] == b[..n] && Place(a[n]) < Place(b[n])
  }

  ghost predicate Increasing(ways: seq<Way>) {
    forall i, j :: 0 <= i < j < |ways| ==> Earlier(ways[i].steps, ways[j].steps)
  }

  /** The paths of the ways to sensitive keys. */
  ghost function Removals(v: Payload, ways: seq<Way>, path: string): seq<string> {
    if ways == [] then []
    else (if ways[0].goal.Sensitive? then [Along(v, ways[0].steps, path)] else []) + Removals(v, ways[1..], path)
  }

  /** The codes of the texts that ways lead to, each behind the path of its text. */
  ghost function Warned(v: Payload, ways: seq<Way>, path: string, guard: string -> Guarded): seq<string> {
    if ways == [] then []
    else
      (if ways[0].goal.Sensitive? then [] else Labelled(Along(v, ways[0].steps, path), guard(ways[0].goal.text).codes))
      + Warned(v, ways[1..], path, guard)
  }

  ghost function Labelled(path: string, codes: seq<string>): seq<string> {
    if codes == [] then [] else Labelled(path, codes[..|codes| - 1]) + [path + ":" + codes[|codes| - 1]]
  }

  lemma {:induction false} CodedIsLabelled(path: string, codes: seq<string>)
    ensures Coded(path, codes) == Labelled(path, codes)
  {
    if codes != [] {
      CodedIsLabelled(path, codes[..|codes| - 1]);
    }
  }

  lemma {:induction false} RemovalsConcat(v: Payload, a: seq<Way>, b: seq<Way>, path: string)
    ensures Removals(v, a + b, path) == Removals(v, a, path) + Removals(v, b, path)
  {
    hide Along;
    if a == [] {
      assert a + b == b;
    } else {
      assert (a + b)[1..] == a[1..] + b;
      RemovalsConcat(v, a[1..], b, path);
    }
  }

  lemma {:induction false} WarnedConcat(v: Payload, a: seq<Way>, b: seq<Way>, path: string, guard: string -> Guarded)
    ensures Warned(v, a + b, path, guard) == Warned(v, a, path, guard) + Warned(v, b, path, guard)
  {
    hide Along, Labelled;
    if a == [] {
      assert a + b == b;
    } else {
      assert (a + b)[1..] == a[1..] + b;
      WarnedConcat(v, a[1..], b, path, guard);
      var first := if a[0].goal.Sensitive? then [] else Labelled(Along(v, a[0].steps, path), guard(a[0].goal.text).codes);
      Regroup(first, Warned(v, a[1..], path, guard), Warned(v, b, path, guard));
    }
  }

  ghost function Behind(step: Step, ways: seq<Way>): seq<Way> {
    seq(|ways|, i requires 0 <= i < |ways| => Way([step] + ways[i].steps, ways[i].goal))
  }

  lemma {:induction false} ReportsBehind(
      v: Payload, step: Step, inner: Payload, ways: seq<Way>, path: string, here: string, guard: string -> Guarded)
    requires forall steps :: Along(v, [step] + steps, path) == Along(inner, steps, here)
    ensures Removals(v, Behind(step, ways), path) == Removals(inner, ways, here)
    ensures Warned(v, Behind(step, ways), path, guard) == Warned(inner, ways, here, guard)
  {
    hide Along;
    if ways != [] {
      assert Behind(step, ways)[1..] == Behind(step, ways[1..]);
      ReportsBehind(v, step, inner, ways[1..], path, here, guard);
    }
  }

  lemma BehindIncreases(step: Step, ways: seq<Way>)
    requires Increasing(ways)
    ensures Increasing(Behind(step, ways))
  {
    var behind := Behind(step, ways);
    forall i, j | 0 <= i < j < |behind|
      ensures Earlier(behind[i].steps, behind[j].steps)
    {
      var a, b := ways[i].steps, ways[j].steps;
      assert Earlier(a, b);
      var n: nat :| PartsAt(a, b, n);
      assert ([step] + a)[..n + 1] == [step] + a[..n] && ([step] + b)[..n + 1] == [step] + b[..n];
      assert PartsAt([step] + a, [step] + b, n + 1);
    }
  }

  /** The ways that start with a step of index `k` or more. */
  ghost predicate StartFrom(ways: seq<Way>, k: nat) {
    forall i :: 0 <= i < |ways| ==> ways[i].steps != [] && Place(ways[i].steps[0]) >= k
  }

  lemma FirstAreEarlier(step: Step, ways: seq<Way>, later: seq<Way>)
    requires Increasing(ways) && Increasing(later) && StartFrom(later, Place(step) + 1)
    ensures Increasing(Behind(step, ways) + later)
  {
    BehindIncreases(step, ways);
    var here := Behind(step, ways);
    var all := here + later;
    forall i, j | 0 <= i < j < |all|
      ensures Earlier(all[i].steps, all[j].steps)
    {
      if i < |here| <= j {
        assert PartsAt(all[i].steps, all[j].steps, 0);
      } else if j < |here| {
        assert all[i] == here[i] && all[j] == here[j];
      } else {
        assert all[i] == later[i - |here|] && all[j] == later[j - |here|];
      }
    }
  }

  // ---------- all ways, in reading order ----------

  /** `ways` are all the ways into the payload that the condition admits, in reading order. */
  ghost predicate AreWays(v: Payload, ways: seq<Way>) {
    && Increasing(ways)
    && (forall i :: 0 <= i < |ways| ==> Leads(v, ways[i].steps, ways[i].goal))
    && (forall steps, goal :: Leads(v, steps, goal) ==> Way(steps, goal) in ways)
  }

  /** The same for the ways that start at index `k` or later. */
  ghost predicate AreWaysFrom(v: Payload, ways: seq<Way>, k: nat) {
    && Increasing(ways) && StartFrom(ways, k)
    && (forall i :: 0 <= i < |ways| ==> Leads(v, ways[i].steps, ways[i].goal))
    && (forall steps, goal :: steps != [] && Place(steps[0]) >= k && Leads(v, steps, goal) ==> Way(steps, goal) in ways)
  }

  lemma NoWaysLeft(v: Payload, k: nat)
    requires match v
             case List(items) => k >= |items|
             case Tuple(items) => k >= |items|
             case Object(entries) => k >= |entries|
             case _ => false
    ensures AreWaysFrom(v, [], k)
  {
  }

  /** What leads on from the step at index `k`. */
  ghost predicate OneStep(v: Payload, step: Step, inner: seq<Way>) {
    && Increasing(inner)
    && (forall i :: 0 <= i < |inner| ==> Leads(v, [step] + inner[i].steps, inner[i].goal))
    && (forall steps, goal :: steps != [] && Place(steps[0]) == Place(step) && Leads(v, steps, goal) ==>
          steps[0] == step && Way(steps[1..], goal) in inner)
  }

  lemma WaysCons(v: Payload, step: Step, inner: seq<Way>, later: seq<Way>)
    requires OneStep(v, step, inner) && AreWaysFrom(v, later, Place(step) + 1)
    ensures AreWaysFrom(v, Behind(step, inner) + later, Place(step))
  {
    hide Leads;
    var k := Place(step);
    var here := Behind(step, inner);
    var all := here + later;
    FirstAreEarlier(step, inner, later);
    forall i | 0 <= i < |all|
      ensures all[i].steps != [] && Place(all[i].steps[0]) >= k && Leads(v, all[i].steps, all[i].goal)
    {
      if i >= |here| {
        assert all[i] == later[i - |here|];
      }
    }
    forall steps, goal | steps != [] && Place(steps[0]) >= k && Leads(v, steps, goal)
      ensures Way(steps, goal) in all
    {
      if Place(steps[0]) == k {
        var i :| 0 <= i < |inner| && inner[i] == Way(steps[1..], goal);
        assert here[i] == Way(steps, goal) by {
          assert [step] + steps[1..] == steps;
        }
        assert all[i] == Way(steps, goal);
      } else {
        assert Way(steps, goal) in later;
      }
    }
  }

  lemma ItemStep(v: Payload, items: seq<Payload>, k: nat, inner: seq<Way>)
    requires (v == List(items) || v == Tuple(items)) && k < |items| && AreWays(items[k], inner)
    ensures OneStep(v, Element(k), inner)
  {
    forall i | 0 <= i < |inner|
      ensures Leads(v, [Element(k)] + inner[i].steps, inner[i].goal)
    {
      assert ([Element(k)] + inner[i].steps)[1..] == inner[i].steps;
    }
  }

  lemma KeptStep(v: Payload, entries: seq<Entry>, k: nat, inner: seq<Way>)
    requires v == Object(entries) && k < |entries| && !IsSensitiveKey(entries[k].key) && AreWays(entries[k].value, inner)
    ensures OneStep(v, Field(k), inner)
  {
    hide IsSensitiveKey;
    forall i | 0 <= i < |inner|
      ensures Leads(v, [Field(k)] + inner[i].steps, inner[i].goal)
    {
      assert ([Field(k)] + inner[i].steps)[1..] == inner[i].steps;
    }
  }

  lemma SensitiveStep(v: Payload, entries: seq<Entry>, k: nat)
    requires v == Object(entries) && k < |entries| && IsSensitiveKey(entries[k].key)
    ensures OneStep(v, Field(k), [Way([], Sensitive)])
  {
    hide IsSensitiveKey;
    assert [Field(k)] + [] == [Field(k)];
    forall steps, goal | steps != [] && Place(steps[0]) == k && Leads(v, steps, goal)
      ensures steps[0] == Field(k) && Way(steps[1..], goal) in [Way([], Sensitive)]
    {
      assert steps[1..] == [];
    }
  }

  ghost predicate ReportsAre(
      v: Payload, ways: seq<Way>, path: string, guard: string -> Guarded, removed: seq<string>, warnings: seq<string>)
  {
    removed == Removals(v, ways, path) && warnings == Warned(v, ways, path, guard)
  }

  /** The removed fields are the paths of all ways to sensitive keys, the warnings the codes of all kept texts, both in
      reading order. */
  lemma {:induction false} ReportsInOrder(v: Payload, path: string, guard: string -> Guarded) returns (ways: seq<Way>)
    ensures AreWays(v, ways)
    ensures ReportsAre(v, ways, path, guard, Removed(v, path), Alerts(v, path, guard))
    decreases v, 1
  {
    match v {
      case Scalar(_) =>
        ways := [];
      case Str(text) =>
        ways := [Way([], Goal.Kept(text))];
        TextReports(v, path, guard);
      case List(items) =>
        ways := ItemReports(v, items, 0, path, guard);
        assert items[0..] == items;
        StartsSomewhere(v, ways);
      case Tuple(items) =>
        ways := ItemReports(v, items, 0, path, guard);
        assert items[0..] == items;
        StartsSomewhere(v, ways);
      case Object(entries) =>
        ways := EntryReports(v, entries, 0, path, guard);
        assert entries[0..] == entries;
        StartsSomewhere(v, ways);
    }
  }

  lemma StartsSomewhere(v: Payload, ways: seq<Way>)
    requires !v.Str? && AreWaysFrom(v, ways, 0)
    ensures AreWays(v, ways)
  {
    assert forall goal :: !Leads(v, [], goal);
  }

  lemma TextReports(v: Payload, path: string, guard: string -> Guarded)
    requires v.Str?
    ensures var ways := [Way([], Goal.Kept(v.text))];
            AreWays(v, ways) && ReportsAre(v, ways, path, guard, Removed(v, path), Alerts(v, path, guard))
  {
    var ways := [Way([], Goal.Kept(v.text))];
    CodedIsLabelled(path, guard(v.text).codes);
    hide Coded, Labelled;
    assert ways[1..] == [];
    NoReports(v, path, guard);
    assert Warned(v, ways, path, guard) == Labelled(path, guard(v.text).codes) + [];
  }

  lemma StepReports(
      v: Payload, step: Step, inner: Payload, ways: seq<Way>, later: seq<Way>, path: string, here: string, guard: string -> Guarded,
      removed: seq<string>, warnings: seq<string>)
    requires forall steps :: Along(v, [step] + steps, path) == Along(inner, steps, here)
    requires ReportsAre(inner, ways, here, guard, Removals(inner, ways, here), Warned(inner, ways, here, guard))
    requires ReportsAre(v, later, path, guard, removed, warnings)
    ensures ReportsAre(v, Behind(step, ways) + later, path, guard,
                       Removals(inner, ways, here) + removed, Warned(inner, ways, here, guard) + warnings)
  {
    hide Along, Labelled;
    ReportsBehind(v, step, inner, ways, path, here, guard);
    RemovalsConcat(v, Behind(step, ways), later, path);
    WarnedConcat(v, Behind(step, ways), later, path, guard);
  }

  lemma {:induction false} ItemReports(v: Payload, items: seq<Payload>, k: nat, path: string, guard: string -> Guarded)
    returns (ways: seq<Way>)
    requires (v == List(items) || v == Tuple(items)) && k <= |items|
    ensures AreWaysFrom(v, ways, k)
    ensures ReportsAre(v, ways, path, guard, RemovedItems(items[k..], path + "[]"), AlertsOfItems(items[k..], path + "[]", guard))
    decreases items, 0, |items| - k
  {
    hide Leads, AreWaysFrom, AreWays, OneStep, Removed, RemovedItems, Alerts, AlertsOfItems, Removals, Warned;
    ItemsEnd(path + "[]", guard);
    if k == |items| {
      ways := [];
      NoWaysLeft(v, k);
      NoReports(v, path, guard);
      assert items[k..] == [];
    } else {
      var inner := ReportsInOrder(items[k], path + "[]", guard);
      var later := ItemReports(v, items, k + 1, path, guard);
      ItemStep(v, items, k, inner);
      WaysCons(v, Element(k), inner, later);
      ItemsNext(items, k, path + "[]", guard);
      AlongItem(v, items, k, path);
      ways := Behind(Element(k), inner) + later;
      StepReports(v, Element(k), items[k], inner, later, path, path + "[]", guard,
                  RemovedItems(items[k + 1..], path + "[]"), AlertsOfItems(items[k + 1..], path + "[]", guard));
    }
  }

  lemma NoReports(v: Payload, path: string, guard: string -> Guarded)
    ensures Removals(v, [], path) == [] && Warned(v, [], path, guard) == []
  {
  }

  lemma AlongItem(v: Payload, items: seq<Payload>, k: nat, path: string)
    requires (v == List(items) || v == Tuple(items)) && k < |items|
    ensures forall steps :: Along(v, [Element(k)] + steps, path) == Along(items[k], steps, path + "[]")
  {
    forall steps: seq<Step>
      ensures Along(v, [Element(k)] + steps, path) == Along(items[k], steps, path + "[]")
    {
      assert ([Element(k)] + steps)[1..] == steps;
    }
  }

  lemma AlongEntry(v: Payload, entries: seq<Entry>, k: nat, path: string)
    requires v == Object(entries) && k < |entries|
    ensures forall steps :: Along(v, [Field(k)] + steps, path) == Along(entries[k].value, steps, Join(path, entries[k].key))
  {
    forall steps: seq<Step>
      ensures Along(v, [Field(k)] + steps, path) == Along(entries[k].value, steps, Join(path, entries[k].key))
    {
      assert ([Field(k)] + steps)[1..] == steps;
    }
  }

  lemma {:induction false} EntryReports(v: Payload, entries: seq<Entry>, k: nat, path: string, guard: string -> Guarded)
    returns (ways: seq<Way>)
    requires v == Object(entries) && k <= |entries|
    ensures AreWaysFrom(v, ways, k)
    ensures ReportsAre(v, ways, path, guard, RemovedEntries(entries[k..], path), AlertsOfEntries(entries[k..], path, guard))
    decreases entries, 0, |entries| - k
  {
    hide Leads, AreWaysFrom, AreWays, OneStep, Removed, RemovedEntries, Alerts, AlertsOfEntries, Removals, Warned, Join;
    hide IsSensitiveKey;
    EntriesEnd(path, guard);
    if k == |entries| {
      ways := [];
      NoWaysLeft(v, k);
      NoReports(v, path, guard);
      assert entries[k..] == [];
    } else {
      var here := Join(path, entries[k].key);
      var inner := [Way([], Sensitive)];
      if !IsSensitiveKey(entries[k].key) {
        inner := ReportsInOrder(entries[k].value, here, guard);
        KeptStep(v, entries, k, inner);
      } else {
        SensitiveStep(v, entries, k);
        SensitiveReports(entries[k].value, here, guard);
      }
      var later := EntryReports(v, entries, k + 1, path, guard);
      WaysCons(v, Field(k), inner, later);
      EntriesNext(entries, k, path, guard);
      AlongEntry(v, entries, k, path);
      ways := Behind(Field(k), inner) + later;
      StepReports(v, Field(k), entries[k].value, inner, later, path, here, guard,
                  RemovedEntries(entries[k + 1..], path), AlertsOfEntries(entries[k + 1..], path, guard));
    }
  }

  lemma SensitiveReports(v: Payload, path: string, guard: string -> Guarded)
    ensures Removals(v, [Way([], Sensitive)], path) == [path] && Warned(v, [Way([], Sensitive)], path, guard) == []
  {
    assert [Way([], Sensitive)][1..] == [];
  }

  // ---------- warnings ----------

  /** The first place of a text in a list. */
  ghost predicate FirstAt(texts: seq<string>, text: string, i: nat) {
    i < |texts| && texts[i] == text && forall j :: 0 <= j < i ==> texts[j] != text
  }

  ghost predicate InFirstOrder(texts: seq<string>, kept: seq<string>) {
    forall i, j, a: nat, b: nat ::
      0 <= i < j < |kept| && FirstAt(texts, kept[i], a) && FirstAt(texts, kept[j], b) ==> a < b
  }

  /** Each text is kept once, and the texts stay in the order in which they first occur. */
  lemma {:induction false} DeduplicatedIs(texts: seq<string>)
    ensures Distinct(Deduplicated(texts))
    ensures forall t :: t in Deduplicated(texts) <==> t in texts
    ensures InFirstOrder(texts, Deduplicated(texts))
  {
    if texts != [] {
      var n := |texts| - 1;
      var front, last := texts[..n], texts[n];
      DeduplicatedIs(front);
      assert texts == front + [last];
      StillFirst(texts, Deduplicated(front));
      if last !in front {
        LastIsLast(texts, Deduplicated(front));
      }
    }
  }

  lemma StillFirst(texts: seq<string>, kept: seq<string>)
    requires texts != [] && InFirstOrder(texts[..|texts| - 1], kept)
    requires forall t :: t in kept ==> t in texts[..|texts| - 1]
    ensures InFirstOrder(texts, kept)
  {
    forall i, j, a: nat, b: nat | 0 <= i < j < |kept| && FirstAt(texts, kept[i], a) && FirstAt(texts, kept[j], b)
      ensures a < b
    {
      assert kept[i] in kept && kept[j] in kept;
      FirstInFront(texts, kept[i], a);
      FirstInFront(texts, kept[j], b);
    }
  }

  lemma LastIsLast(texts: seq<string>, kept: seq<string>)
    requires texts != [] && InFirstOrder(texts, kept)
    requires forall t :: t in kept ==> t in texts[..|texts| - 1]
    requires texts[|texts| - 1] !in texts[..|texts| - 1]
    ensures InFirstOrder(texts, kept + [texts[|texts| - 1]])
  {
    var n := |texts| - 1;
    var all := kept + [texts[n]];
    forall i, j, a: nat, b: nat | 0 <= i < j < |all| && FirstAt(texts, all[i], a) && FirstAt(texts, all[j], b)
      ensures a < b
    {
      assert all[i] == kept[i] && kept[i] in kept;
      FirstInFront(texts, kept[i], a);
      if j < |kept| {
        assert all[j] == kept[j];
      }
    }
  }

  lemma FirstInFront(texts: seq<string>, text: string, i: nat)
    requires FirstAt(texts, text, i) && texts != [] && text in texts[..|texts| - 1]
    ensures i < |texts| - 1 && FirstAt(texts[..|texts| - 1], text, i)
  {
    var k :| 0 <= k < |texts| - 1 && texts[..|texts| - 1][k] == text;
    assert texts[k] == text;
  }

  /** A text at this path yields the warning. */
  ghost predicate IsWarning(v: Payload, guard: string -> Guarded, warning: string) {
    exists steps, text, code :: WarnsAt(v, guard, warning, steps, text, code)
  }

  ghost predicate WarnsAt(v: Payload, guard: string -> Guarded, warning: string, steps: seq<Step>, text: string, code: string) {
    Leads(v, steps, Goal.Kept(text)) && code in guard(text).codes && warning == Along(v, steps, "") + ":" + code
  }

  lemma {:induction false} LabelledMembers(path: string, codes: seq<string>, warning: string)
    ensures warning in Labelled(path, codes) <==> exists code :: code in codes && warning == path + ":" + code
  {
    if codes != [] {
      var n := |codes| - 1;
      LabelledMembers(path, codes[..n], warning);
      assert codes == codes[..n] + [codes[n]];
    }
  }

  lemma {:induction false} WarnedMembers(v: Payload, ways: seq<Way>, path: string, guard: string -> Guarded, warning: string)
    ensures warning in Warned(v, ways, path, guard) <==>
            exists w, code :: w in ways && w.goal.Kept? && code in guard(w.goal.text).codes
                              && warning == Along(v, w.steps, path) + ":" + code
  {
    hide Along, Labelled;
    if ways != [] {
      var w := ways[0];
      assert ways == [w] + ways[1..];
      WarnedMembers(v, ways[1..], path, guard, warning);
      if w.goal.Kept? {
        LabelledMembers(Along(v, w.steps, path), guard(w.goal.text).codes, warning);
      }
    }
  }

  /** A warning is returned if and only if a kept text at its path yields its code, and each only once. */
  lemma WarningsAreExact(v: Payload, guard: string -> Guarded, warning: string)
    ensures var warnings := Deduplicated(Alerts(v, "", guard));
            Distinct(warnings) && (warning in warnings <==> IsWarning(v, guard, warning))
  {
    hide Leads, Along, Alerts, Removed, Deduplicated, Warned, Removals, Distinct;
    DeduplicatedIs(Alerts(v, "", guard));
    var ways := ReportsInOrder(v, "", guard);
    WarnedMembers(v, ways, "", guard, warning);
    if warning in Alerts(v, "", guard) {
      var w, code :| w in ways && w.goal.Kept? && code in guard(w.goal.text).codes
                     && warning == Along(v, w.steps, "") + ":" + code;
      assert WarnsAt(v, guard, warning, w.steps, w.goal.text, code);
    }
    if IsWarning(v, guard, warning) {
      var steps, text, code :| WarnsAt(v, guard, warning, steps, text, code);
      assert Way(steps, Goal.Kept(text)) in ways;
    }
  }
}
