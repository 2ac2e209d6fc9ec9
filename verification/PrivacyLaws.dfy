/** What the sanitizer promises: no sensitive key survives at any depth, everything else keeps its place, and
    a second pass finds nothing to remove. */
module PrivacyLaws {
  import opened Text
  import opened Itinerary
  import opened Privacy

  // ---------- which keys are sensitive ----------

  predicate InWord(c: char) {
    'a' <= c <= 'z' || '0' <= c <= '9'
  }

  /** The longest runs of small letters and digits. */
  function Words(s: string): seq<string>
    decreases |s|
  {
    if s == "" then []
    else if InWord(s[0]) then [s[..RunLength(s, true)]] + Words(s[RunLength(s, true)..])
    else Words(s[RunLength(s, false)..])
  }

  function Joined(words: seq<string>): string {
    if words == [] then "" else if |words| == 1 then words[0] else words[0] + "_" + Joined(words[1..])
  }

  predicate IsWord(w: string) {
    w != "" && forall i :: 0 <= i < |w| ==> InWord(w[i])
  }

  lemma {:induction false} WordsAreWords(s: string)
    ensures forall k :: 0 <= k < |Words(s)| ==> IsWord(Words(s)[k])
    decreases |s|
  {
    if s != "" {
      WordsAreWords(s[RunLength(s, IsWordChar(s[0]))..]);
    }
  }

  predicate StartsOutside(s: string) {
    s != "" && !IsWordChar(s[0])
  }

  lemma WordFirst(s: string) returns (word: string, rest: string)
    requires s != "" && IsWordChar(s[0])
    ensures |rest| < |s| && (rest == "" || StartsOutside(rest))
    ensures Collapse(s) == word + Collapse(rest) && Words(s) == [word] + Words(rest)
  {
    var n := RunLength(s, true);
    word, rest := s[..n], s[n..];
  }

  lemma GapFirst(s: string) returns (rest: string)
    requires StartsOutside(s)
    ensures |rest| < |s| && !StartsOutside(rest)
    ensures Collapse(s) == "_" + Collapse(rest) && Words(s) == Words(rest)
  {
    rest := s[RunLength(s, false)..];
  }

  function Lead(s: string): string {
    if StartsOutside(s) then "_" else ""
  }

  /** Collapsing leaves the words, one underscore between neighbours, and one for a gap at either end. */
  lemma {:induction false} CollapseJoinsWords(s: string) returns (tail: string)
    ensures Collapse(s) == Lead(s) + Joined(Words(s)) + tail
    ensures tail == "" || (tail == "_" && Words(s) != [])
    decreases |s|
  {
    hide Collapse, Words, Joined;
    if s == "" {
      tail := "";
      NothingToCollapse();
    } else if IsWordChar(s[0]) {
      var word, rest := WordFirst(s);
      tail := CollapseJoinsWords(rest);
      JoinedCons(word, Words(rest));
      if rest == "" {
        NothingToCollapse();
      } else if Words(rest) == [] {
        NothingToCollapse();
        tail := "_";
      } else {
        assert word + ("_" + Joined(Words(rest)) + tail) == "" + (word + "_" + Joined(Words(rest))) + tail;
      }
    } else {
      var rest := GapFirst(s);
      tail := CollapseJoinsWords(rest);
      assert "_" + ("" + Joined(Words(rest)) + tail) == "_" + Joined(Words(rest)) + tail;
    }
  }

  lemma NothingToCollapse()
    ensures Collapse("") == "" && Words("") == [] && Joined([]) == ""
  {
  }

  lemma JoinedCons(word: string, words: seq<string>)
    ensures Joined([word] + words) == if words == [] then word else word + "_" + Joined(words)
  {
    assert ([word] + words)[1..] == words;
  }

  lemma {:induction false} JoinedEndsInWords(words: seq<string>)
    requires words != [] && forall k :: 0 <= k < |words| ==> IsWord(words[k])
    ensures var j := Joined(words); j != "" && IsWordChar(j[0]) && IsWordChar(j[|j| - 1])
  {
    assert IsWord(words[0]);
    if |words| > 1 {
      JoinedEndsInWords(words[1..]);
    }
  }

  lemma StripTail(j: string, tail: string)
    requires j != "" && IsWordChar(j[0]) && IsWordChar(j[|j| - 1]) && (tail == "" || tail == "_")
    ensures StripUnderscores(j + tail) == j
  {
    if tail == "" {
      assert j + tail == j;
    } else {
      assert (j + tail)[..|j + tail| - 1] == j;
    }
  }

  lemma StripEnds(lead: string, j: string, tail: string)
    requires (lead == "" || lead == "_") && (tail == "" || tail == "_")
    requires if j == "" then tail == "" else IsWordChar(j[0]) && IsWordChar(j[|j| - 1])
    ensures StripUnderscores(lead + j + tail) == j
  {
    if j != "" {
      StripTail(j, tail);
    }
    if lead == "_" {
      assert (lead + j + tail)[1..] == j + tail;
    } else {
      assert lead + j + tail == j + tail;
    }
  }

  lemma {:induction false} SplitOfJoined(words: seq<string>)
    requires words != [] && forall k :: 0 <= k < |words| ==> IsWord(words[k])
    ensures Split(Joined(words)) == words
  {
    assert IsWord(words[0]) && words == [words[0]] + words[1..];
    JoinedCons(words[0], words[1..]);
    if |words| > 1 {
      SplitOfJoined(words[1..]);
    }
    hide Joined, Split;
    SplitWord(words[0], Joined(words[1..]));
  }

  lemma SplitWord(w: string, rest: string)
    requires IsWord(w)
    ensures Split(w) == [w] && Split(w + "_" + rest) == [w] + Split(rest)
  {
    assert '_' !in w;
    var j := w + "_" + rest;
    assert j[..|w|] == w && j[|w|] == '_' && j[|w| + 1..] == rest;
    FindIsFirst(j, '_', |w|);
  }

  /** A key is sensitive exactly when one of its words is a keyword, or all of them, joined, are one. */
  lemma SensitiveByWords(key: string)
    ensures var words := Words(Lower(Strip(key)));
            IsSensitiveKey(key) <==>
            Joined(words) in KEYWORDS || exists k :: 0 <= k < |words| && words[k] in KEYWORDS
  {
    var s := Lower(Strip(key));
    var words := Words(s);
    var tail := CollapseJoinsWords(s);
    WordsAreWords(s);
    if words != [] {
      JoinedEndsInWords(words);
      SplitOfJoined(words);
    }
    StripEnds(Lead(s), Joined(words), tail);
    hide Words, Joined, Collapse, StripUnderscores;
    NothingToCollapse();
    if words == [] {
      NoEmptyKeyword();
    }
  }

  lemma NoEmptyKeyword()
    ensures "" !in KEYWORDS && Split("") == [""]
  {
  }

  // ---------- no sensitive key survives ----------

  predicate IsClean(v: Payload)
    decreases v, 1
  {
    match v
    case Scalar(_) => true
    case Str(_) => true
    case List(items) => ItemsAreClean(items)
    case Tuple(items) => ItemsAreClean(items)
    case Object(entries) => forall k :: 0 <= k < |entries| ==> EntryIsClean(entries[k])
  }

  predicate ItemsAreClean(items: seq<Payload>)
    decreases items, 0
  {
    forall k :: 0 <= k < |items| ==> IsClean(items[k])
  }

  predicate EntryIsClean(e: Entry)
    decreases e, 0
  {
    Kept(e) && IsClean(e.value)
  }

  /** No key at any depth of the result is sensitive. */
  lemma {:induction false} NothingSensitiveSurvives(v: Payload, guard: string -> Guarded)
    ensures IsClean(Clean(v, guard))
    decreases v, 1
  {
    match v {
      case Scalar(_) =>
      case Str(_) =>
      case List(items) => ItemsSurviveClean(items, guard);
      case Tuple(items) => ItemsSurviveClean(items, guard);
      case Object(entries) => EntriesSurviveClean(entries, guard);
    }
  }

  lemma {:induction false} ItemsSurviveClean(items: seq<Payload>, guard: string -> Guarded)
    ensures ItemsAreClean(CleanItems(items, guard))
    decreases items, 0
  {
    if items != [] {
      NothingSensitiveSurvives(items[0], guard);
      ItemsSurviveClean(items[1..], guard);
    }
  }

  lemma {:induction false} EntriesSurviveClean(entries: seq<Entry>, guard: string -> Guarded)
    ensures forall k :: 0 <= k < |CleanEntries(entries, guard)| ==> EntryIsClean(CleanEntries(entries, guard)[k])
    decreases entries, 0
  {
    hide IsSensitiveKey;
    if entries != [] {
      EntriesSurviveClean(entries[1..], guard);
      if Kept(entries[0]) {
        NothingSensitiveSurvives(entries[0].value, guard);
        assert EntryIsClean(Entry(entries[0].key, Clean(entries[0].value, guard)));
      }
    }
  }

  // ---------- everything else keeps its place ----------

  /** `after` is `before` with some entries gone and every text guarded. */
  predicate Mirrors(before: Payload, after: Payload, guard: string -> Guarded)
    decreases before, 1
  {
    match before
    case Scalar(_) => after == before
    case Str(text) => after == Str(guard(text).content)
    case List(items) => after.List? && ItemsMirror(items, after.items, guard)
    case Tuple(items) => after.Tuple? && ItemsMirror(items, after.items, guard)
    case Object(entries) => after.Object? && EntriesMirror(entries, after.entries, guard)
  }

  /** Lists keep their length and order. */
  predicate ItemsMirror(before: seq<Payload>, after: seq<Payload>, guard: string -> Guarded)
    decreases before, 0
  {
    |after| == |before| && forall k :: 0 <= k < |before| ==> Mirrors(before[k], after[k], guard)
  }

  /** The kept entries stand in their old order under their old keys. */
  predicate EntriesMirror(before: seq<Entry>, after: seq<Entry>, guard: string -> Guarded)
    decreases before, 0
  {
    if before == [] then after == []
    else if Kept(before[0]) then
      && after != [] && after[0].key == before[0].key && Mirrors(before[0].value, after[0].value, guard)
      && EntriesMirror(before[1..], after[1..], guard)
    else EntriesMirror(before[1..], after, guard)
  }

  lemma {:induction false} CleaningMirrors(v: Payload, guard: string -> Guarded)
    ensures Mirrors(v, Clean(v, guard), guard)
    decreases v, 1
  {
    match v {
      case Scalar(_) =>
      case Str(_) =>
      case List(items) => ItemsMirrorClean(items, guard);
      case Tuple(items) => ItemsMirrorClean(items, guard);
      case Object(entries) => EntriesMirrorClean(entries, guard);
    }
  }

  lemma {:induction false} ItemsMirrorClean(items: seq<Payload>, guard: string -> Guarded)
    ensures ItemsMirror(items, CleanItems(items, guard), guard)
    decreases items, 0
  {
    if items != [] {
      CleaningMirrors(items[0], guard);
      ItemsMirrorClean(items[1..], guard);
      var rest := CleanItems(items[1..], guard);
      assert ItemsMirror(items[1..], rest, guard);
      forall k | 0 <= k < |items|
        ensures Mirrors(items[k], CleanItems(items, guard)[k], guard)
      {
        if k > 0 {
          assert items[1..][k - 1] == items[k] && rest[k - 1] == CleanItems(items, guard)[k];
        }
      }
    }
  }

  lemma {:induction false} EntriesMirrorClean(entries: seq<Entry>, guard: string -> Guarded)
    ensures EntriesMirror(entries, CleanEntries(entries, guard), guard)
    decreases entries, 0
  {
    hide IsSensitiveKey;
    if entries != [] {
      EntriesMirrorClean(entries[1..], guard);
      if Kept(entries[0]) {
        CleaningMirrors(entries[0].value, guard);
        var rest := CleanEntries(entries[1..], guard);
        assert ([Entry(entries[0].key, Clean(entries[0].value, guard))] + rest)[1..] == rest;
      }
    }
  }

  // ---------- what is reported ----------

  /** A path is reported exactly when there is something to remove. */
  lemma {:induction false} NothingRemovedOnlyFromClean(v: Payload, path: string)
    ensures Removed(v, path) == [] <==> IsClean(v)
    decreases v, 1
  {
    match v {
      case Scalar(_) =>
      case Str(_) =>
      case List(items) => NoItemRemoved(items, path + "[]");
      case Tuple(items) => NoItemRemoved(items, path + "[]");
      case Object(entries) => NoEntryRemoved(entries, path);
    }
  }

  lemma {:induction false} NoItemRemoved(items: seq<Payload>, path: string)
    ensures RemovedItems(items, path) == [] <==> ItemsAreClean(items)
    decreases items, 0
  {
    if items != [] {
      NothingRemovedOnlyFromClean(items[0], path);
      NoItemRemoved(items[1..], path);
      assert ItemsAreClean(items) <==> IsClean(items[0]) && ItemsAreClean(items[1..]) by {
        assert items == [items[0]] + items[1..];
      }
    }
  }

  lemma {:induction false} NoEntryRemoved(entries: seq<Entry>, path: string)
    ensures RemovedEntries(entries, path) == [] <==> forall k :: 0 <= k < |entries| ==> EntryIsClean(entries[k])
    decreases entries, 0
  {
    hide IsSensitiveKey;
    if entries != [] {
      NoEntryRemoved(entries[1..], path);
      NothingRemovedOnlyFromClean(entries[0].value, Join(path, entries[0].key));
      var rest := entries[1..];
      assert forall k :: 1 <= k < |entries| ==> entries[k] == rest[k - 1];
      assert forall k :: 0 <= k < |rest| ==> rest[k] == entries[k + 1];
      assert EntryIsClean(entries[0]) <==> Kept(entries[0]) && Removed(entries[0].value, Join(path, entries[0].key)) == [];
    }
  }

  /** A second pass removes nothing; if guarding a text twice is guarding it once, it changes nothing at all. */
  lemma SecondPassRemovesNothing(v: Payload, guard: string -> Guarded, path: string)
    ensures Removed(Clean(v, guard), path) == []
    ensures (forall text :: guard(guard(text).content).content == guard(text).content) ==>
              Clean(Clean(v, guard), guard) == Clean(v, guard)
  {
    NothingSensitiveSurvives(v, guard);
    NothingRemovedOnlyFromClean(Clean(v, guard), path);
    if forall text :: guard(guard(text).content).content == guard(text).content {
      CleaningTwice(v, guard);
    }
  }

  lemma {:induction false} CleaningTwice(v: Payload, guard: string -> Guarded)
    requires forall text :: guard(guard(text).content).content == guard(text).content
    ensures Clean(Clean(v, guard), guard) == Clean(v, guard)
    decreases v, 1
  {
    match v {
      case Scalar(_) =>
      case Str(_) =>
      case List(items) => ItemsTwice(items, guard);
      case Tuple(items) => ItemsTwice(items, guard);
      case Object(entries) => EntriesTwice(entries, guard);
    }
  }

  lemma {:induction false} ItemsTwice(items: seq<Payload>, guard: string -> Guarded)
    requires forall text :: guard(guard(text).content).content == guard(text).content
    ensures CleanItems(CleanItems(items, guard), guard) == CleanItems(items, guard)
    decreases items, 0
  {
    if items != [] {
      CleaningTwice(items[0], guard);
      ItemsTwice(items[1..], guard);
      var rest := CleanItems(items[1..], guard);
      assert ([Clean(items[0], guard)] + rest)[1..] == rest;
    }
  }

  lemma {:induction false} EntriesTwice(entries: seq<Entry>, guard: string -> Guarded)
    requires forall text :: guard(guard(text).content).content == guard(text).content
    ensures CleanEntries(CleanEntries(entries, guard), guard) == CleanEntries(entries, guard)
    decreases entries, 0
  {
    hide IsSensitiveKey;
    if entries != [] {
      EntriesTwice(entries[1..], guard);
      if Kept(entries[0]) {
        CleaningTwice(entries[0].value, guard);
        var rest := CleanEntries(entries[1..], guard);
        var first := Entry(entries[0].key, Clean(entries[0].value, guard));
        assert ([first] + rest)[1..] == rest;
        assert Kept(first);
      }
    }
  }

  // ---------- which paths are reported ----------

  datatype Step = Element(index: nat) | Field(index: nat)

  /** `steps` leads from `v` through kept entries and list positions to an entry with a sensitive key. */
  predicate LeadsToSensitive(v: Payload, steps: seq<Step>)
    decreases steps
  {
    if steps == [] then false
    else
      match steps[0]
      case Element(k) =>
        (v.List? || v.Tuple?) && k < |v.items| && LeadsToSensitive(v.items[k], steps[1..])
      case Field(k) =>
        v.Object? && k < |v.entries|
        && (if Kept(v.entries[k]) then LeadsToSensitive(v.entries[k].value, steps[1..]) else |steps| == 1)
  }

  function PathOf(v: Payload, steps: seq<Step>, path: string): string
    requires LeadsToSensitive(v, steps)
    decreases steps
  {
    match steps[0]
    case Element(k) => PathOf(v.items[k], steps[1..], path + "[]")
    case Field(k) =>
      var here := Join(path, v.entries[k].key);
      if Kept(v.entries[k]) then PathOf(v.entries[k].value, steps[1..], here) else here
  }

  /** Every way to an outermost sensitive key is reported under its path. */
  lemma {:induction false} SensitivePathsAreReported(v: Payload, steps: seq<Step>, path: string)
    requires LeadsToSensitive(v, steps)
    ensures PathOf(v, steps, path) in Removed(v, path)
    decreases steps
  {
    match steps[0] {
      case Element(k) =>
        SensitivePathsAreReported(v.items[k], steps[1..], path + "[]");
        ItemPathsAreReported(v.items, k, path + "[]");
      case Field(k) =>
        var here := Join(path, v.entries[k].key);
        EntryPathsAreReported(v.entries, k, path);
        if Kept(v.entries[k]) {
          SensitivePathsAreReported(v.entries[k].value, steps[1..], here);
        }
    }
  }

  lemma {:induction false} ItemPathsAreReported(items: seq<Payload>, k: nat, path: string)
    requires k < |items|
    ensures forall p :: p in Removed(items[k], path) ==> p in RemovedItems(items, path)
  {
    if k > 0 {
      ItemPathsAreReported(items[1..], k - 1, path);
    }
  }

  lemma {:induction false} EntryPathsAreReported(entries: seq<Entry>, k: nat, path: string)
    requires k < |entries|
    ensures var here := Join(path, entries[k].key);
            if Kept(entries[k]) then forall p :: p in Removed(entries[k].value, here) ==> p in RemovedEntries(entries, path)
            else here in RemovedEntries(entries, path)
  {
    hide IsSensitiveKey;
    if k > 0 {
      EntryPathsAreReported(entries[1..], k - 1, path);
    }
  }

  /** Every reported path is the path of a way to an outermost sensitive key. */
  lemma {:induction false} ReportedPathsAreSensitive(v: Payload, path: string, p: string) returns (steps: seq<Step>)
    requires p in Removed(v, path)
    ensures LeadsToSensitive(v, steps) && PathOf(v, steps, path) == p
    decreases v, 1
  {
    match v {
      case List(items) =>
        var k, rest := ReportedItem(items, path + "[]", p);
        steps := [Element(k)] + rest;
        assert steps[1..] == rest;
      case Tuple(items) =>
        var k, rest := ReportedItem(items, path + "[]", p);
        steps := [Element(k)] + rest;
        assert steps[1..] == rest;
      case Object(entries) =>
        var k, rest := ReportedEntry(entries, path, p);
        steps := [Field(k)] + rest;
        assert steps[1..] == rest;
    }
  }

  lemma {:induction false} ReportedItem(items: seq<Payload>, path: string, p: string) returns (k: nat, steps: seq<Step>)
    requires p in RemovedItems(items, path)
    ensures k < |items| && LeadsToSensitive(items[k], steps) && PathOf(items[k], steps, path) == p
    decreases items, 0
  {
    if p in Removed(items[0], path) {
      k := 0;
      steps := ReportedPathsAreSensitive(items[0], path, p);
    } else {
      var j, rest := ReportedItem(items[1..], path, p);
      k, steps := j + 1, rest;
    }
  }

  lemma {:induction false} ReportedEntry(entries: seq<Entry>, path: string, p: string) returns (k: nat, steps: seq<Step>)
    requires p in RemovedEntries(entries, path)
    ensures k < |entries|
    ensures var here := Join(path, entries[k].key);
            if Kept(entries[k]) then LeadsToSensitive(entries[k].value, steps) && PathOf(entries[k].value, steps, here) == p
            else steps == [] && p == here
    decreases entries, 0
  {
    hide IsSensitiveKey;
    var here := Join(path, entries[0].key);
    if p in RemovedEntries(entries[1..], path) {
      var j, rest := ReportedEntry(entries[1..], path, p);
      k, steps := j + 1, rest;
    } else if Kept(entries[0]) {
      k := 0;
      steps := ReportedPathsAreSensitive(entries[0].value, here, p);
    } else {
      k, steps := 0, [];
    }
  }
}
