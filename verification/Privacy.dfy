/** `sanitize_ai_payload`: the recursive rewrite that keeps sensitive fields from reaching a model. */
module Privacy {
  import opened Text
  import opened Sequences
  import opened Itinerary

  /** A payload; the entries of an object stand in insertion order. */
  datatype Payload =
    | Scalar(literal: string)  // None, a boolean or a number
    | Str(text: string)
    | List(items: seq<Payload>)
    | Tuple(items: seq<Payload>)
    | Object(entries: seq<Entry>)

  datatype Entry = Entry(key: string, value: Payload)

  /** What guarding a text yields: the text that may be sent, and the codes of the patterns it matched. */
  datatype Guarded = Guarded(content: string, codes: seq<string>)

  // ---------- sensitive keys ----------

  const KEYWORDS: seq<string> := [
    "access_token", "accesstoken", "authorization", "auth_header", "calendar_description",
    "calendar_event_description", "calendar_event_title", "calendar_title", "comment", "comments", "cookie",
    "cookies", "email", "home_address", "internal_log", "log", "oauth_token", "ocr_text", "phone", "private_note",
    "private_notes", "raw_provider_payload", "raw_response", "receipt", "receipt_data", "refresh_token",
    "share_password", "share_token", "stack_trace", "token", "user_id", "userid"]

  predicate IsWordChar(c: char) {
    'a' <= c <= 'z' || IsDigit(c)
  }

  /** The length of the run, at the front of `s`, of characters that are word characters or are not. */
  function RunLength(s: string, word: bool): (n: nat)
    ensures n <= |s|
    ensures forall i :: 0 <= i < n ==> IsWordChar(s[i]) == word
    ensures n < |s| ==> IsWordChar(s[n]) != word
    ensures s != "" && IsWordChar(s[0]) == word ==> n > 0
  {
    if s != "" && IsWordChar(s[0]) == word then 1 + RunLength(s[1..], word) else 0
  }

  /** `re.sub(r"[^a-z0-9]+", "_", s)`. */
  function Collapse(s: string): string
    decreases |s|
  {
    if s == "" then ""
    else if IsWordChar(s[0]) then s[..RunLength(s, true)] + Collapse(s[RunLength(s, true)..])
    else "_" + Collapse(s[RunLength(s, false)..])
  }

  /** `s.strip("_")`. */
  function StripUnderscores(s: string): string {
    if s == "" then ""
    else if s[0] == '_' then StripUnderscores(s[1..])
    else if s[|s| - 1] == '_' then StripUnderscores(s[..|s| - 1])
    else s
  }

  /** `s.split("_")`. */
  function Split(s: string): seq<string>
    decreases |s|
  {
    match Find(s, '_')
    case None => [s]
    case Some(i) => [s[..i]] + Split(s[i + 1..])
  }

  predicate IsSensitiveKey(key: string) {
    var normalized := StripUnderscores(Collapse(Lower(Strip(key))));
    normalized in KEYWORDS || exists k :: 0 <= k < |Split(normalized)| && Split(normalized)[k] in KEYWORDS
  }

  predicate Kept(e: Entry) {
    !IsSensitiveKey(e.key)
  }

  // ---------- the rewrite ----------

  function Join(path: string, key: string): string {
    if path != "" then path + "." + key else key
  }

  function Clean(v: Payload, guard: string -> Guarded): Payload
    decreases v, 1
  {
    match v
    case Scalar(_) => v
    case Str(text) => Str(guard(text).content)
    case List(items) => List(CleanItems(items, guard))
    case Tuple(items) => Tuple(CleanItems(items, guard))
    case Object(entries) => Object(CleanEntries(entries, guard))
  }

  function CleanItems(items: seq<Payload>, guard: string -> Guarded): seq<Payload>
    decreases items, 0
  {
    if items == [] then [] else [Clean(items[0], guard)] + CleanItems(items[1..], guard)
  }

  function CleanEntries(entries: seq<Entry>, guard: string -> Guarded): seq<Entry>
    decreases entries, 0
  {
    if entries == [] then []
    else if !Kept(entries[0]) then CleanEntries(entries[1..], guard)
    else [Entry(entries[0].key, Clean(entries[0].value, guard))] + CleanEntries(entries[1..], guard)
  }

  /** The paths of the entries that are dropped, in reading order. */
  function Removed(v: Payload, path: string): seq<string>
    decreases v, 1
  {
    match v
    case Scalar(_) => []
    case Str(_) => []
    case List(items) => RemovedItems(items, path + "[]")
    case Tuple(items) => RemovedItems(items, path + "[]")
    case Object(entries) => RemovedEntries(entries, path)
  }

  function RemovedItems(items: seq<Payload>, path: string): seq<string>
    decreases items, 0
  {
    if items == [] then [] else Removed(items[0], path) + RemovedItems(items[1..], path)
  }

  function RemovedEntries(entries: seq<Entry>, path: string): seq<string>
    decreases entries, 0
  {
    if entries == [] then []
    else
      var here := Join(path, entries[0].key);
      (if !Kept(entries[0]) then [here] else Removed(entries[0].value, here)) + RemovedEntries(entries[1..], path)
  }

  function Coded(path: string, codes: seq<string>): seq<string> {
    seq(|codes|, i requires 0 <= i < |codes| => path + ":" + codes[i])
  }

  /** The warnings of the texts that are kept, each with its path. */
  function Alerts(v: Payload, path: string, guard: string -> Guarded): seq<string>
    decreases v, 1
  {
    match v
    case Scalar(_) => []
    case Str(text) => Coded(path, guard(text).codes)
    case List(items) => AlertsOfItems(items, path + "[]", guard)
    case Tuple(items) => AlertsOfItems(items, path + "[]", guard)
    case Object(entries) => AlertsOfEntries(entries, path, guard)
  }

  function AlertsOfItems(items: seq<Payload>, path: string, guard: string -> Guarded): seq<string>
    decreases items, 0
  {
    if items == [] then [] else Alerts(items[0], path, guard) + AlertsOfItems(items[1..], path, guard)
  }

  function AlertsOfEntries(entries: seq<Entry>, path: string, guard: string -> Guarded): seq<string>
    decreases entries, 0
  {
    if entries == [] then []
    else
      (if !Kept(entries[0]) then [] else Alerts(entries[0].value, Join(path, entries[0].key), guard))
      + AlertsOfEntries(entries[1..], path, guard)
  }

  /** `dict.fromkeys`: each text once, where it first occurs. */
  function Deduplicated(texts: seq<string>): seq<string> {
    if texts == [] then []
    else
      var front, last := texts[..|texts| - 1], texts[|texts| - 1];
      if last in front then Deduplicated(front) else Deduplicated(front) + [last]
  }

  datatype Sanitization = Sanitization(payload: Payload, removed: seq<string>, warnings: seq<string>)

  /** The two lists the recursive rewrite appends to. */
  class Sanitizer {
    var removed: seq<string>
    var warnings: seq<string>
    const guard: string -> Guarded

    constructor (guard: string -> Guarded)
      ensures this.guard == guard && removed == [] && warnings == []
    {
      this.guard := guard;
      removed, warnings := [], [];
    }

    method Sanitize(current: Payload, path: string) returns (clean: Payload)
      modifies this
      ensures clean == Clean(current, guard)
      ensures removed == old(removed) + Removed(current, path)
      ensures warnings == old(warnings) + Alerts(current, path, guard)
      decreases current, 1
    {
      match current {
        case Scalar(_) =>
          clean := current;
        case Str(text) =>
          var guarded := guard(text);
          warnings := warnings + Coded(path, guarded.codes);
          clean := Str(guarded.content);
        case List(items) =>
          var cleaned := SanitizeItems(items, path + "[]");
          clean := List(cleaned);
        case Tuple(items) =>
          var cleaned := SanitizeItems(items, path + "[]");
          clean := Tuple(cleaned);
        case Object(entries) =>
          var cleaned := SanitizeEntries(entries, path);
          clean := Object(cleaned);
      }
    }

    method SanitizeItems(items: seq<Payload>, path: string) returns (clean: seq<Payload>)
      modifies this
      ensures clean == CleanItems(items, guard)
      ensures removed == old(removed) + RemovedItems(items, path)
      ensures warnings == old(warnings) + AlertsOfItems(items, path, guard)
      decreases items, 0
    {
      clean := [];
      for k := 0 to |items|
        invariant clean + CleanItems(items[k..], guard) == CleanItems(items, guard)
        invariant removed + RemovedItems(items[k..], path) == old(removed) + RemovedItems(items, path)
        invariant warnings + AlertsOfItems(items[k..], path, guard) == old(warnings) + AlertsOfItems(items, path, guard)
      {
        ItemsNext(items, k, path, guard);
        ghost var c, r, w := clean, removed, warnings;
        var item := Sanitize(items[k], path);
        clean := clean + [item];
        Regroup(c, [item], CleanItems(items[k + 1..], guard));
        Regroup(r, Removed(items[k], path), RemovedItems(items[k + 1..], path));
        Regroup(w, Alerts(items[k], path, guard), AlertsOfItems(items[k + 1..], path, guard));
      }
      ItemsEnd(path, guard);
      assert items[|items|..] == [];
    }

    method SanitizeEntries(entries: seq<Entry>, path: string) returns (clean: seq<Entry>)
      modifies this
      ensures clean == CleanEntries(entries, guard)
      ensures removed == old(removed) + RemovedEntries(entries, path)
      ensures warnings == old(warnings) + AlertsOfEntries(entries, path, guard)
      decreases entries, 0
    {
      hide IsSensitiveKey, Clean, CleanEntries, Removed, RemovedEntries, Alerts, AlertsOfEntries, Join;
      clean := [];
      for k := 0 to |entries|
        invariant clean + CleanEntries(entries[k..], guard) == CleanEntries(entries, guard)
        invariant removed + RemovedEntries(entries[k..], path) == old(removed) + RemovedEntries(entries, path)
        invariant warnings + AlertsOfEntries(entries[k..], path, guard) == old(warnings) + AlertsOfEntries(entries, path, guard)
      {
        var entry := entries[k];
        var next := Join(path, entry.key);
        EntriesNext(entries, k, path, guard);
        ghost var c, r, w := clean, removed, warnings;
        if IsSensitiveKey(entry.key) {
          removed := removed + [next];
          Regroup(r, [next], RemovedEntries(entries[k + 1..], path));
          continue;
        }
        var value := Sanitize(entry.value, next);
        clean := clean + [Entry(entry.key, value)];
        Regroup(c, [Entry(entry.key, value)], CleanEntries(entries[k + 1..], guard));
        Regroup(r, Removed(entry.value, next), RemovedEntries(entries[k + 1..], path));
        Regroup(w, Alerts(entry.value, next, guard), AlertsOfEntries(entries[k + 1..], path, guard));
      }
      EntriesEnd(path, guard);
      assert entries[|entries|..] == [];
    }
  }

  method SanitizePayload(value: Payload, guard: string -> Guarded) returns (result: Sanitization)
    ensures result == Sanitization(Clean(value, guard), Removed(value, ""), Deduplicated(Alerts(value, "", guard)))
  {
    hide Clean, Removed, Alerts, Deduplicated;
    var sanitizer := new Sanitizer(guard);
    var clean := sanitizer.Sanitize(value, "");
    assert sanitizer.removed == Removed(value, "");
    assert sanitizer.warnings == Alerts(value, "", guard);
    result := Sanitization(clean, sanitizer.removed, Deduplicated(sanitizer.warnings));
  }

  // ---------- one step of the loops ----------

  lemma ItemsNext(items: seq<Payload>, k: nat, path: string, guard: string -> Guarded)
    requires k < |items|
    ensures CleanItems(items[k..], guard) == [Clean(items[k], guard)] + CleanItems(items[k + 1..], guard)
    ensures RemovedItems(items[k..], path) == Removed(items[k], path) + RemovedItems(items[k + 1..], path)
    ensures AlertsOfItems(items[k..], path, guard) == Alerts(items[k], path, guard) + AlertsOfItems(items[k + 1..], path, guard)
  {
    assert items[k..][0] == items[k] && items[k..][1..] == items[k + 1..];
  }

  lemma ItemsEnd(path: string, guard: string -> Guarded)
    ensures CleanItems([], guard) == [] && RemovedItems([], path) == [] && AlertsOfItems([], path, guard) == []
  {
  }

  lemma EntriesNext(entries: seq<Entry>, k: nat, path: string, guard: string -> Guarded)
    requires k < |entries|
    ensures var e, rest := entries[k], entries[k + 1..];
            var here := Join(path, e.key);
            && CleanEntries(entries[k..], guard) ==
                 (if !Kept(e) then CleanEntries(rest, guard)
                  else [Entry(e.key, Clean(e.value, guard))] + CleanEntries(rest, guard))
            && RemovedEntries(entries[k..], path) ==
                 (if !Kept(e) then [here] else Removed(e.value, here)) + RemovedEntries(rest, path)
            && AlertsOfEntries(entries[k..], path, guard) ==
                 (if !Kept(e) then [] else Alerts(e.value, here, guard)) + AlertsOfEntries(rest, path, guard)
  {
    hide Kept;
    assert entries[k..][0] == entries[k] && entries[k..][1..] == entries[k + 1..];
  }

  lemma EntriesEnd(path: string, guard: string -> Guarded)
    ensures CleanEntries([], guard) == [] && RemovedEntries([], path) == [] && AlertsOfEntries([], path, guard) == []
  {
  }
}
