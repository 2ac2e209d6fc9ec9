/** The service worker's asset cache: one handler at a time as imperative code, and any number of
    handlers interleaving their asynchronous steps as a transition system over the same cache. */
module AssetCache {
  import opened Sequences

  const MAX_RUNTIME_ASSETS: nat := 120

  /** A same-origin URL. */
  datatype Request = Request(path: string, query: string)

  predicate IsRuntime(r: Request) {
    "/_next/static/" <= r.path
  }

  // ---------- the ordered request list of a Cache (section 5.4, W3C Service Workers) ----------

  function RemoveAll(keys: seq<Request>, gone: set<Request>): seq<Request> {
    if keys == [] then []
    else (if keys[0] in gone then [] else [keys[0]]) + RemoveAll(keys[1..], gone)
  }

  /** `put` drops an entry with the same URL and appends the new one. */
  function Put(keys: seq<Request>, r: Request): seq<Request> {
    RemoveAll(keys, {r}) + [r]
  }

  function RuntimeKeys(keys: seq<Request>): seq<Request> {
    if keys == [] then []
    else if IsRuntime(keys[0]) then [keys[0]] + RuntimeKeys(keys[1..])
    else RuntimeKeys(keys[1..])
  }

  function ShellKeys(keys: seq<Request>): seq<Request> {
    if keys == [] then []
    else if IsRuntime(keys[0]) then ShellKeys(keys[1..])
    else [keys[0]] + ShellKeys(keys[1..])
  }

  function LastOf(keys: seq<Request>, n: nat): seq<Request> {
    if |keys| <= n then keys else keys[|keys| - n..]
  }

  function Expired(keys: seq<Request>): seq<Request> {
    var runtime := RuntimeKeys(keys);
    runtime[..|runtime| - |LastOf(runtime, MAX_RUNTIME_ASSETS)|]
  }

  function ElementsOf(keys: seq<Request>): set<Request> {
    set k | k in keys
  }

  function Prune(keys: seq<Request>): seq<Request> {
    RemoveAll(keys, ElementsOf(Expired(keys)))
  }

  /** What one handler, running alone, leaves in the cache. */
  function Serve(keys: seq<Request>, r: Request, ok: bool): seq<Request> {
    if r in keys || !ok then keys else Prune(Put(keys, r))
  }

  // ---------- facts about the list operations ----------

  lemma {:induction false} RemoveAllMembers(keys: seq<Request>, gone: set<Request>)
    ensures forall k :: k in RemoveAll(keys, gone) <==> k in keys && k !in gone
    ensures Distinct(keys) ==> Distinct(RemoveAll(keys, gone))
  {
    if keys != [] {
      RemoveAllMembers(keys[1..], gone);
      assert keys == [keys[0]] + keys[1..];
      if Distinct(keys) {
        assert forall j :: 0 <= j < |keys[1..]| ==> keys[1..][j] == keys[j + 1] && keys[1..][j] != keys[0];
        assert keys[0] !in RemoveAll(keys[1..], gone);
      }
    }
  }

  lemma {:induction false} RuntimeMembers(keys: seq<Request>)
    ensures forall k :: k in RuntimeKeys(keys) <==> k in keys && IsRuntime(k)
    ensures Distinct(keys) ==> Distinct(RuntimeKeys(keys))
  {
    if keys != [] {
      RuntimeMembers(keys[1..]);
      assert keys == [keys[0]] + keys[1..];
      if Distinct(keys) {
        assert forall j :: 0 <= j < |keys[1..]| ==> keys[1..][j] == keys[j + 1] && keys[1..][j] != keys[0];
        assert keys[0] !in RuntimeKeys(keys[1..]);
      }
    }
  }

  lemma PutMembers(keys: seq<Request>, r: Request)
    ensures forall k :: k in Put(keys, r) <==> k in keys || k == r
    ensures Distinct(keys) ==> Distinct(Put(keys, r))
  {
    RemoveAllMembers(keys, {r});
  }

  lemma {:induction false} RemoveAllTwice(keys: seq<Request>, a: set<Request>, b: set<Request>)
    ensures RemoveAll(RemoveAll(keys, a), b) == RemoveAll(keys, a + b)
  {
    if keys != [] {
      RemoveAllTwice(keys[1..], a, b);
      var rest := RemoveAll(keys[1..], a);
      if keys[0] in a {
        assert RemoveAll(keys, a) == rest;
      } else {
        assert RemoveAll(keys, a) == [keys[0]] + rest;
        assert ([keys[0]] + rest)[1..] == rest;
      }
    }
  }

  lemma {:induction false} RemoveAllConcat(a: seq<Request>, b: seq<Request>, gone: set<Request>)
    ensures RemoveAll(a + b, gone) == RemoveAll(a, gone) + RemoveAll(b, gone)
  {
    if a == [] {
      assert a + b == b;
    } else {
      assert (a + b)[1..] == a[1..] + b;
      RemoveAllConcat(a[1..], b, gone);
    }
  }

  lemma {:induction false} RemoveNothing(keys: seq<Request>, gone: set<Request>)
    requires forall k :: k in keys ==> k !in gone
    ensures RemoveAll(keys, gone) == keys
  {
    if keys != [] {
      assert keys[0] in keys && forall k :: k in keys[1..] ==> k in keys;
      RemoveNothing(keys[1..], gone);
    }
  }

  lemma {:induction false} RemoveEverything(keys: seq<Request>, gone: set<Request>)
    requires forall k :: k in keys ==> k in gone
    ensures RemoveAll(keys, gone) == []
  {
    if keys != [] {
      assert keys[0] in keys && forall k :: k in keys[1..] ==> k in keys;
      RemoveEverything(keys[1..], gone);
    }
  }

  lemma {:induction false} RuntimeOfRemoveAll(keys: seq<Request>, gone: set<Request>)
    ensures RuntimeKeys(RemoveAll(keys, gone)) == RemoveAll(RuntimeKeys(keys), gone)
  {
    if keys != [] {
      RuntimeOfRemoveAll(keys[1..], gone);
      RuntimeConcat(if keys[0] in gone then [] else [keys[0]], RemoveAll(keys[1..], gone));
      RemoveAllConcat(if IsRuntime(keys[0]) then [keys[0]] else [], RuntimeKeys(keys[1..]), gone);
    }
  }

  lemma {:induction false} RuntimeConcat(a: seq<Request>, b: seq<Request>)
    ensures RuntimeKeys(a + b) == RuntimeKeys(a) + RuntimeKeys(b)
  {
    if a == [] {
      assert a + b == b;
    } else {
      assert (a + b)[1..] == a[1..] + b;
      RuntimeConcat(a[1..], b);
    }
  }

  lemma {:induction false} ShellConcat(a: seq<Request>, b: seq<Request>)
    ensures ShellKeys(a + b) == ShellKeys(a) + ShellKeys(b)
  {
    if a == [] {
      assert a + b == b;
    } else {
      assert (a + b)[1..] == a[1..] + b;
      ShellConcat(a[1..], b);
    }
  }

  lemma {:induction false} ShellOfRemoveAll(keys: seq<Request>, gone: set<Request>)
    ensures ShellKeys(RemoveAll(keys, gone)) == RemoveAll(ShellKeys(keys), gone)
    ensures forall k :: k in ShellKeys(keys) <==> k in keys && !IsRuntime(k)
  {
    if keys != [] {
      ShellOfRemoveAll(keys[1..], gone);
      assert keys == [keys[0]] + keys[1..];
      ShellConcat(if keys[0] in gone then [] else [keys[0]], RemoveAll(keys[1..], gone));
      RemoveAllConcat(if IsRuntime(keys[0]) then [] else [keys[0]], ShellKeys(keys[1..]), gone);
    }
  }

  lemma RuntimeOfPut(keys: seq<Request>, r: Request)
    ensures RuntimeKeys(Put(keys, r)) == if IsRuntime(r) then Put(RuntimeKeys(keys), r) else RuntimeKeys(keys)
    ensures ShellKeys(Put(keys, r)) == if IsRuntime(r) then ShellKeys(keys) else Put(ShellKeys(keys), r)
  {
    RuntimeConcat(RemoveAll(keys, {r}), [r]);
    ShellConcat(RemoveAll(keys, {r}), [r]);
    RuntimeOfRemoveAll(keys, {r});
    ShellOfRemoveAll(keys, {r});
    RuntimeMembers(keys);
    if IsRuntime(r) {
      RemoveNothing(ShellKeys(keys), {r});
    } else {
      RemoveNothing(RuntimeKeys(keys), {r});
    }
  }

  lemma PartsAreApart(a: seq<Request>, b: seq<Request>)
    requires Distinct(a + b)
    ensures forall k :: k in b ==> k !in a
  {
    var all := a + b;
    assert forall i :: 0 <= i < |a| ==> all[i] == a[i];
    assert forall j :: 0 <= j < |b| ==> all[|a| + j] == b[j];
  }

  /** Pruning keeps the last 120 runtime entries, in order, and every app-shell entry. */
  lemma PruneKeepsTheLast(keys: seq<Request>)
    requires Distinct(keys)
    ensures RuntimeKeys(Prune(keys)) == LastOf(RuntimeKeys(keys), MAX_RUNTIME_ASSETS)
    ensures var all := RuntimeKeys(keys);
            RuntimeKeys(Prune(keys)) == if |all| <= 120 then all else all[|all| - 120..]
    ensures ShellKeys(Prune(keys)) == ShellKeys(keys)
    ensures Distinct(Prune(keys))
  {
    var runtime := RuntimeKeys(keys);
    var stale, kept := Expired(keys), LastOf(runtime, MAX_RUNTIME_ASSETS);
    RuntimeMembers(keys);
    RuntimeOfRemoveAll(keys, ElementsOf(stale));
    ShellOfRemoveAll(keys, ElementsOf(stale));
    RemoveAllMembers(keys, ElementsOf(stale));
    assert runtime == stale + kept;
    PartsAreApart(stale, kept);
    hide RuntimeKeys, ShellKeys;
    RemoveAllConcat(stale, kept, ElementsOf(stale));
    RemoveEverything(stale, ElementsOf(stale));
    RemoveNothing(kept, ElementsOf(stale));
    RemoveNothing(ShellKeys(keys), ElementsOf(stale));
  }

  // ---------- one handler at a time ----------

  /** The worker's cache object. */
  class Cache {
    var keys: seq<Request>

    ghost predicate Valid()
      reads this
    {
      Distinct(keys)
    }

    constructor ()
      ensures Valid() && keys == []
    {
      keys := [];
    }

    method PutEntry(r: Request)
      requires Valid()
      modifies this
      ensures Valid() && keys == Put(old(keys), r)
    {
      PutMembers(keys, r);
      keys := RemoveAll(keys, {r}) + [r];
    }

    method DeleteEntry(r: Request)
      requires Valid()
      modifies this
      ensures Valid() && keys == RemoveAll(old(keys), {r})
    {
      RemoveAllMembers(keys, {r});
      keys := RemoveAll(keys, {r});
    }

    method PruneRuntimeAssets()
      requires Valid()
      modifies this
      ensures Valid() && keys == Prune(old(keys))
      ensures RuntimeKeys(keys) == LastOf(RuntimeKeys(old(keys)), MAX_RUNTIME_ASSETS)
      ensures ShellKeys(keys) == ShellKeys(old(keys))
    {
      var runtimeKeys := RuntimeKeys(keys);
      var count := if |runtimeKeys| > MAX_RUNTIME_ASSETS then |runtimeKeys| - MAX_RUNTIME_ASSETS else 0;
      var expired := runtimeKeys[..count];
      PruneKeepsTheLast(keys);
      RemoveNothing(keys, {});
      assert ElementsOf(expired[..0]) == {};
      for i := 0 to |expired|
        invariant Valid()
        invariant keys == RemoveAll(old(keys), ElementsOf(expired[..i]))
      {
        RemoveAllTwice(old(keys), ElementsOf(expired[..i]), {expired[i]});
        assert ElementsOf(expired[..i + 1]) == ElementsOf(expired[..i]) + {expired[i]};
        DeleteEntry(expired[i]);
      }
      assert expired[..|expired|] == expired;
    }

    /** `cacheFirst`, with the outcome of the lookup and of the network as its inputs. */
    method CacheFirst(request: Request, ok: bool) returns (hit: bool)
      requires Valid()
      modifies this
      ensures Valid() && hit == (request in old(keys))
      ensures keys == Serve(old(keys), request, ok)
    {
      hit := request in keys;
      if hit {
        return;
      }
      if ok {
        PutEntry(request);
        PruneRuntimeAssets();
      }
    }
  }

  datatype Visit = Visit(request: Request, ok: bool)

  function ServeAll(keys: seq<Request>, visits: seq<Visit>): seq<Request> {
    if visits == [] then keys
    else
      var before := ServeAll(keys, visits[..|visits| - 1]);
      var v := visits[|visits| - 1];
      Serve(before, v.request, v.ok)
  }

  /** The requests that were stored, in the order they were stored: the misses that succeeded. */
  function Stored(keys: seq<Request>, visits: seq<Visit>): seq<Request> {
    if visits == [] then []
    else
      var front := visits[..|visits| - 1];
      var v := visits[|visits| - 1];
      Stored(keys, front) + (if v.ok && v.request !in ServeAll(keys, front) then [v.request] else [])
  }

  /** The distinct requests of a history, ordered by their latest occurrence. */
  function ByRecency(history: seq<Request>): seq<Request> {
    if history == [] then []
    else Put(ByRecency(history[..|history| - 1]), history[|history| - 1])
  }

  /** One handler at a time, the survivors are exactly the 120 most recently stored entries. */
  lemma {:induction false} SurvivorsAreMostRecent(keys: seq<Request>, visits: seq<Visit>)
    requires Distinct(keys) && |RuntimeKeys(keys)| <= MAX_RUNTIME_ASSETS
    requires forall i :: 0 <= i < |visits| ==> IsRuntime(visits[i].request)
    ensures Distinct(ServeAll(keys, visits))
    ensures RuntimeKeys(ServeAll(keys, visits))
         == LastOf(ByRecency(RuntimeKeys(keys) + Stored(keys, visits)), MAX_RUNTIME_ASSETS)
    ensures ShellKeys(ServeAll(keys, visits)) == ShellKeys(keys)
  {
    var start := RuntimeKeys(keys);
    if visits == [] {
      RuntimeMembers(keys);
      RecencyOfDistinct(start);
      assert start + Stored(keys, visits) == start;
    } else {
      var front, v := visits[..|visits| - 1], visits[|visits| - 1];
      SurvivorsAreMostRecent(keys, front);
      var now := ServeAll(keys, front);
      var history := start + Stored(keys, front);
      hide RuntimeKeys, ShellKeys, Prune, Put, LastOf, IsRuntime;
      if v.ok && v.request !in now {
        PutMembers(now, v.request);
        RuntimeOfPut(now, v.request);
        PruneKeepsTheLast(Put(now, v.request));
        RuntimeMembers(now);
        RecencyDistinct(history);
        LastOfPut(ByRecency(history), v.request);
        var later := history + [v.request];
        assert start + Stored(keys, visits) == later;
        assert later[..|later| - 1] == history;
      } else {
        assert start + Stored(keys, visits) == history;
      }
    }
  }

  lemma {:induction false} RecencyDistinct(history: seq<Request>)
    ensures Distinct(ByRecency(history))
    ensures forall k :: k in ByRecency(history) <==> k in history
  {
    if history != [] {
      var front, r := history[..|history| - 1], history[|history| - 1];
      RecencyDistinct(front);
      PutMembers(ByRecency(front), r);
      assert history == front + [r];
    }
  }

  lemma {:induction false} RecencyOfDistinct(history: seq<Request>)
    requires Distinct(history)
    ensures ByRecency(history) == history
  {
    if history != [] {
      var front, r := history[..|history| - 1], history[|history| - 1];
      RecencyOfDistinct(front);
      assert r !in front;
      hide RemoveAll;
      RemoveNothing(front, {r});
      assert history == front + [r];
    }
  }

  lemma LastOfPut(keys: seq<Request>, r: Request)
    requires Distinct(keys) && r !in LastOf(keys, MAX_RUNTIME_ASSETS)
    ensures LastOf(Put(LastOf(keys, MAX_RUNTIME_ASSETS), r), MAX_RUNTIME_ASSETS)
         == LastOf(Put(keys, r), MAX_RUNTIME_ASSETS)
  {
    var kept := LastOf(keys, MAX_RUNTIME_ASSETS);
    var stale := keys[..|keys| - |kept|];
    assert keys == stale + kept;
    RemoveAllConcat(stale, kept, {r});
    RemoveNothing(kept, {r});
    assert Put(keys, r) == RemoveAll(stale, {r}) + (kept + [r]);
    if stale != [] {
      var front := RemoveAll(stale, {r});
      assert |kept| == MAX_RUNTIME_ASSETS;
      assert LastOf(kept + [r], MAX_RUNTIME_ASSETS) == kept[1..] + [r];
      assert front + (kept + [r]) == (front + kept[..1]) + (kept[1..] + [r]);
    }
  }

  // ---------- handlers interleaving ----------

  /** Where a `cacheFirst` handler stands between two awaits. */
  datatype Phase =
    | Looking
    | Fetching
    | Storing
    | AwaitingKeys
    | Deleting(pending: set<Request>)
    | Finished

  datatype Handler = Handler(request: Request, phase: Phase)

  datatype World = World(keys: seq<Request>, handlers: seq<Handler>)

  datatype Event =
    | Arrive(request: Request)
    | Install(request: Request)              // one entry of the install handler's addAll
    | Lookup(h: nat, foundElsewhere: bool)   // caches.match looks into every cache of the origin
    | Respond(h: nat, ok: bool)
    | Store(h: nat)
    | Snapshot(h: nat)
    | DeleteOne(h: nat, key: Request)
    | Finish(h: nat)

  predicate InPhase(w: World, h: nat, phase: Phase) {
    h < |w.handlers| && w.handlers[h].phase == phase
  }

  predicate Enabled(w: World, e: Event) {
    match e
    case Arrive(request) => IsRuntime(request)
    case Install(request) => !IsRuntime(request)
    case Lookup(h, _) => InPhase(w, h, Looking)
    case Respond(h, _) => InPhase(w, h, Fetching)
    case Store(h) => InPhase(w, h, Storing)
    case Snapshot(h) => InPhase(w, h, AwaitingKeys)
    case DeleteOne(h, key) =>
      h < |w.handlers| && w.handlers[h].phase.Deleting? && key in w.handlers[h].phase.pending
    case Finish(h) => InPhase(w, h, Deleting({}))
  }

  function Move(w: World, h: nat, keys: seq<Request>, phase: Phase): World
    requires h < |w.handlers|
  {
    World(keys, w.handlers[h := w.handlers[h].(phase := phase)])
  }

  function Arrived(w: World, request: Request): World {
    w.(handlers := w.handlers + [Handler(request, Looking)])
  }

  function Next(w: World, e: Event): World
    requires Enabled(w, e)
  {
    match e
    case Arrive(request) => Arrived(w, request)
    case Install(request) => w.(keys := Put(w.keys, request))
    case Lookup(h, foundElsewhere) =>
      Move(w, h, w.keys, if foundElsewhere || w.handlers[h].request in w.keys then Finished else Fetching)
    case Respond(h, ok) => Move(w, h, w.keys, if ok then Storing else Finished)
    case Store(h) => Move(w, h, Put(w.keys, w.handlers[h].request), AwaitingKeys)
    case Snapshot(h) => Move(w, h, w.keys, Deleting(ElementsOf(Expired(w.keys))))
    case DeleteOne(h, key) =>
      Move(w, h, RemoveAll(w.keys, {key}), Deleting(w.handlers[h].phase.pending - {key}))
    case Finish(h) => Move(w, h, w.keys, Finished)
  }

  ghost predicate IsRun(w: World, events: seq<Event>)
    decreases |events|
  {
    events != [] ==> Enabled(w, events[0]) && IsRun(Next(w, events[0]), events[1..])
  }

  ghost function After(w: World, events: seq<Event>): World
    requires IsRun(w, events)
    decreases |events|
  {
    if events == [] then w else After(Next(w, events[0]), events[1..])
  }

  ghost predicate Quiet(w: World) {
    forall h :: 0 <= h < |w.handlers| ==> w.handlers[h].phase == Finished
  }

  // ---------- the inductive invariant ----------

  ghost predicate PendingAt(w: World, h: nat, k: Request)
    requires h < |w.handlers|
  {
    w.handlers[h].phase.Deleting? && k in w.handlers[h].phase.pending
  }

  ghost predicate Pending(w: World, k: Request) {
    exists h :: 0 <= h < |w.handlers| && PendingAt(w, h, k)
  }

  /** The runtime entries that no handler is about to delete. */
  ghost function Live(w: World): set<Request> {
    set k | k in w.keys && IsRuntime(k) && !Pending(w, k)
  }

  /** Handlers that have stored but not yet read the key list. */
  function Waiting(handlers: seq<Handler>): nat {
    if handlers == [] then 0
    else (if handlers[0].phase == AwaitingKeys then 1 else 0) + Waiting(handlers[1..])
  }

  ghost predicate WellFormed(w: World) {
    && Distinct(w.keys)
    && (forall h :: 0 <= h < |w.handlers| ==> IsRuntime(w.handlers[h].request))
    && (forall k :: Pending(w, k) ==> IsRuntime(k))
  }

  ghost predicate Bounded(w: World) {
    |Live(w)| <= MAX_RUNTIME_ASSETS + Waiting(w.handlers)
  }

  lemma {:induction false} WaitingUpdate(handlers: seq<Handler>, h: nat, phase: Phase)
    requires h < |handlers|
    ensures Waiting(handlers[h := handlers[h].(phase := phase)])
         == Waiting(handlers) - (if handlers[h].phase == AwaitingKeys then 1 else 0)
                              + (if phase == AwaitingKeys then 1 else 0)
  {
    var updated := handlers[h := handlers[h].(phase := phase)];
    if h > 0 {
      WaitingUpdate(handlers[1..], h - 1, phase);
      assert updated[1..] == handlers[1..][h - 1 := handlers[h].(phase := phase)];
    } else {
      assert updated[1..] == handlers[1..];
    }
  }

  lemma {:induction false} WaitingConcat(a: seq<Handler>, b: seq<Handler>)
    ensures Waiting(a + b) == Waiting(a) + Waiting(b)
  {
    if a == [] {
      assert a + b == b;
    } else {
      assert (a + b)[1..] == a[1..] + b;
      WaitingConcat(a[1..], b);
    }
  }

  lemma SubsetIsNoLarger(a: set<Request>, b: set<Request>)
    requires a <= b
    ensures |a| <= |b|
  {
    assert |b| == |a| + |b - a| by {
      assert a + (b - a) == b;
    }
  }

  lemma {:induction false} CountElements(keys: seq<Request>)
    ensures |ElementsOf(keys)| <= |keys|
    ensures Distinct(keys) ==> |ElementsOf(keys)| == |keys|
  {
    if keys != [] {
      var front, r := keys[..|keys| - 1], keys[|keys| - 1];
      CountElements(front);
      assert ElementsOf(keys) == ElementsOf(front) + {r};
    }
  }

  /** A handler's move changes the pending keys only through its own phase. */
  lemma PendingAfterMove(w: World, h: nat, w': World)
    requires h < |w.handlers| && |w'.handlers| == |w.handlers|
    requires forall g :: 0 <= g < |w.handlers| && g != h ==> w'.handlers[g] == w.handlers[g]
    ensures forall k :: Pending(w', k) ==> Pending(w, k) || PendingAt(w', h, k)
    ensures forall k :: Pending(w, k) ==> Pending(w', k) || PendingAt(w, h, k)
    ensures forall k :: PendingAt(w', h, k) ==> Pending(w', k)
  {
    forall k | Pending(w', k)
      ensures Pending(w, k) || PendingAt(w', h, k)
    {
      var g :| 0 <= g < |w'.handlers| && PendingAt(w', g, k);
      assert g != h ==> PendingAt(w, g, k);
    }
    forall k | Pending(w, k)
      ensures Pending(w', k) || PendingAt(w, h, k)
    {
      var g :| 0 <= g < |w.handlers| && PendingAt(w, g, k);
      assert g != h ==> PendingAt(w', g, k);
    }
  }

  lemma ArrivalKeepsPending(w: World, request: Request)
    ensures forall k :: Pending(Arrived(w, request), k) <==> Pending(w, k)
  {
    var w' := Arrived(w, request);
    forall k | Pending(w, k)
      ensures Pending(w', k)
    {
      var g :| 0 <= g < |w.handlers| && PendingAt(w, g, k);
      assert PendingAt(w', g, k);
    }
    forall k | Pending(w', k)
      ensures Pending(w, k)
    {
      var g :| 0 <= g < |w'.handlers| && PendingAt(w', g, k);
      assert g < |w.handlers| && PendingAt(w, g, k);
    }
  }

  lemma ExpiredAreRuntime(keys: seq<Request>)
    ensures forall k :: k in Expired(keys) ==> IsRuntime(k) && k in keys
  {
    RuntimeMembers(keys);
    assert forall k :: k in Expired(keys) ==> k in RuntimeKeys(keys);
  }

  lemma SamePending(w: World, w': World)
    requires w.handlers == w'.handlers
    ensures forall k :: Pending(w', k) <==> Pending(w, k)
  {
    forall k | Pending(w, k)
      ensures Pending(w', k)
    {
      var g :| 0 <= g < |w.handlers| && PendingAt(w, g, k);
      assert PendingAt(w', g, k);
    }
    forall k | Pending(w', k)
      ensures Pending(w, k)
    {
      var g :| 0 <= g < |w.handlers| && PendingAt(w', g, k);
      assert PendingAt(w, g, k);
    }
  }

  lemma StepKeepsWellFormed(w: World, e: Event)
    requires WellFormed(w) && Enabled(w, e)
    ensures WellFormed(Next(w, e))
  {
    var w' := Next(w, e);
    match e {
      case Arrive(request) =>
        ArrivalKeepsPending(w, request);
      case Install(request) =>
        PutMembers(w.keys, request);
        SamePending(w, w');
      case Lookup(h, _) =>
        PendingAfterMove(w, h, w');
      case Respond(h, ok) =>
        PendingAfterMove(w, h, w');
      case Store(h) =>
        PutMembers(w.keys, w.handlers[h].request);
        PendingAfterMove(w, h, w');
      case Snapshot(h) =>
        ExpiredAreRuntime(w.keys);
        PendingAfterMove(w, h, w');
      case DeleteOne(h, key) =>
        RemoveAllMembers(w.keys, {key});
        PendingAfterMove(w, h, w');
        assert forall k :: PendingAt(w, h, k) ==> Pending(w, k);
        assert forall k :: PendingAt(w', h, k) ==> PendingAt(w, h, k);
      case Finish(h) =>
        PendingAfterMove(w, h, w');
    }
  }

  /** Reading the key list leaves at most 120 entries live, whatever the cache held before. */
  lemma SnapshotBounds(w: World, h: nat)
    requires WellFormed(w) && Enabled(w, Snapshot(h))
    ensures |Live(Next(w, Snapshot(h)))| <= MAX_RUNTIME_ASSETS
  {
    var w' := Next(w, Snapshot(h));
    PendingAfterMove(w, h, w');
    var runtime := RuntimeKeys(w.keys);
    var kept := LastOf(runtime, MAX_RUNTIME_ASSETS);
    RuntimeMembers(w.keys);
    assert runtime == Expired(w.keys) + kept;
    assert Live(w') <= ElementsOf(kept);
    CountElements(kept);
    SubsetIsNoLarger(Live(w'), ElementsOf(kept));
  }

  lemma StoreBounds(w: World, h: nat)
    requires WellFormed(w) && Enabled(w, Store(h))
    ensures |Live(Next(w, Store(h)))| <= |Live(w)| + 1
  {
    var w' := Next(w, Store(h));
    var r := w.handlers[h].request;
    PutMembers(w.keys, r);
    PendingAfterMove(w, h, w');
    assert Live(w') <= Live(w) + {r};
    SubsetIsNoLarger(Live(w'), Live(w) + {r});
  }

  lemma StepKeepsBounded(w: World, e: Event)
    requires WellFormed(w) && Enabled(w, e)
    requires Bounded(w) || e.Snapshot?
    ensures Bounded(Next(w, e))
  {
    var w' := Next(w, e);
    match e {
      case Arrive(request) =>
        ArrivalKeepsPending(w, request);
        WaitingConcat(w.handlers, [Handler(request, Looking)]);
        assert Live(w') == Live(w);
      case Install(request) =>
        PutMembers(w.keys, request);
        SamePending(w, w');
        assert Live(w') == Live(w);
      case Lookup(h, _) =>
        SilentMoveKeepsBounded(w, h, w'.handlers[h].phase);
      case Respond(h, _) =>
        SilentMoveKeepsBounded(w, h, w'.handlers[h].phase);
      case Finish(h) =>
        SilentMoveKeepsBounded(w, h, Finished);
      case Store(h) =>
        StoreBounds(w, h);
        WaitingUpdate(w.handlers, h, AwaitingKeys);
      case Snapshot(h) =>
        SnapshotBounds(w, h);
      case DeleteOne(h, key) =>
        RemoveAllMembers(w.keys, {key});
        PendingAfterMove(w, h, w');
        WaitingUpdate(w.handlers, h, w'.handlers[h].phase);
        assert Live(w') <= Live(w);
        SubsetIsNoLarger(Live(w'), Live(w));
    }
  }

  lemma SilentMoveKeepsBounded(w: World, h: nat, phase: Phase)
    requires h < |w.handlers| && Bounded(w)
    requires w.handlers[h].phase != AwaitingKeys && phase != AwaitingKeys
    requires w.handlers[h].phase.Deleting? ==> w.handlers[h].phase.pending == {}
    requires !phase.Deleting?
    ensures Bounded(Move(w, h, w.keys, phase))
  {
    PendingAfterMove(w, h, Move(w, h, w.keys, phase));
    WaitingUpdate(w.handlers, h, phase);
    assert Live(Move(w, h, w.keys, phase)) == Live(w);
  }

  // ---------- over whole runs ----------

  ghost predicate ReadsKeysSometime(events: seq<Event>) {
    exists i :: 0 <= i < |events| && events[i].Snapshot?
  }

  /** Along every run the live entries exceed 120 by at most the handlers still waiting to read the
      key list; if the cache began over-full, from the first such reading on. */
  lemma {:induction false} RunKeepsInvariant(w: World, events: seq<Event>)
    requires WellFormed(w) && IsRun(w, events)
    ensures WellFormed(After(w, events))
    ensures Bounded(w) || ReadsKeysSometime(events) ==> Bounded(After(w, events))
    decreases |events|
  {
    if events != [] {
      StepKeepsWellFormed(w, events[0]);
      RunKeepsInvariant(Next(w, events[0]), events[1..]);
      if Bounded(w) || events[0].Snapshot? {
        StepKeepsBounded(w, events[0]);
      } else if ReadsKeysSometime(events) {
        var i :| 0 <= i < |events| && events[i].Snapshot?;
        assert events[1..][i - 1].Snapshot?;
      }
    }
  }

  /** However the handlers interleave, once all are finished at most 120 runtime entries remain. */
  lemma QuietCacheIsBounded(w: World, events: seq<Event>)
    requires WellFormed(w) && IsRun(w, events) && Quiet(After(w, events))
    requires (Quiet(w) && |RuntimeKeys(w.keys)| <= MAX_RUNTIME_ASSETS) || ReadsKeysSometime(events)
    ensures |RuntimeKeys(After(w, events).keys)| <= MAX_RUNTIME_ASSETS
  {
    if Quiet(w) {
      QuietLive(w);
    }
    RunKeepsInvariant(w, events);
    QuietLive(After(w, events));
  }

  lemma QuietLive(w: World)
    requires WellFormed(w) && Quiet(w)
    ensures |Live(w)| == |RuntimeKeys(w.keys)| && Waiting(w.handlers) == 0
  {
    RuntimeMembers(w.keys);
    assert Live(w) == ElementsOf(RuntimeKeys(w.keys));
    CountElements(RuntimeKeys(w.keys));
    QuietWaiting(w.handlers);
  }

  lemma {:induction false} QuietWaiting(handlers: seq<Handler>)
    requires forall h :: 0 <= h < |handlers| ==> handlers[h].phase == Finished
    ensures Waiting(handlers) == 0
  {
    if handlers != [] {
      QuietWaiting(handlers[1..]);
    }
  }

  /** What the install events alone would make of the app-shell entries. */
  function Installed(shell: seq<Request>, events: seq<Event>): seq<Request>
    decreases |events|
  {
    if events == [] then shell
    else Installed(if events[0].Install? then Put(shell, events[0].request) else shell, events[1..])
  }

  /** No handler ever adds, moves or deletes an app-shell entry: along every run they are what the
      install events alone make of them. */
  lemma {:induction false} ShellIsOnlyInstalled(w: World, events: seq<Event>)
    requires WellFormed(w) && IsRun(w, events)
    ensures ShellKeys(After(w, events).keys) == Installed(ShellKeys(w.keys), events)
    decreases |events|
  {
    if events != [] {
      StepKeepsWellFormed(w, events[0]);
      ShellIsOnlyInstalled(Next(w, events[0]), events[1..]);
      match events[0] {
        case Install(request) =>
          RuntimeOfPut(w.keys, request);
        case Store(h) =>
          RuntimeOfPut(w.keys, w.handlers[h].request);
        case DeleteOne(h, key) =>
          assert PendingAt(w, h, key);
          ShellOfRemoveAll(w.keys, {key});
          RemoveNothing(ShellKeys(w.keys), {key});
        case _ =>
      }
    }
  }

  // ---------- a handler alone, in the interleaved system ----------

  ghost predicate OnlyHandler(e: Event, h: nat) {
    match e
    case Arrive(_) => false
    case Install(_) => false
    case Lookup(g, _) => g == h
    case Respond(g, _) => g == h
    case Store(g) => g == h
    case Snapshot(g) => g == h
    case DeleteOne(g, _) => g == h
    case Finish(g) => g == h
  }

  /** What the cache holds at each phase of handler `h`, if no other handler moves; `fetched` when a good
      response has come. */
  ghost predicate AloneAt(w: World, h: nat, r: Request, before: seq<Request>, fetched: bool) {
    && h < |w.handlers| && w.handlers[h].request == r
    && (fetched ==> r !in before)
    && match w.handlers[h].phase
       case Looking => w.keys == before && !fetched
       case Fetching => w.keys == before && !fetched && r !in before
       case Storing => w.keys == before && fetched
       case AwaitingKeys => w.keys == Put(before, r) && fetched
       case Deleting(pending) => RemoveAll(w.keys, pending) == Serve(before, r, true) && fetched
       case Finished => w.keys == if fetched then Serve(before, r, true) else before
  }

  lemma {:induction false} AloneRun(
      w: World, h: nat, r: Request, before: seq<Request>, fetched: bool, events: seq<Event>)
    requires IsRun(w, events) && AloneAt(w, h, r, before, fetched)
    requires forall i :: 0 <= i < |events| ==> OnlyHandler(events[i], h)
    ensures AloneAt(After(w, events), h, r, before, fetched || Respond(h, true) in events)
    decreases |events|
  {
    if events != [] {
      var e := events[0];
      assert events == [e] + events[1..];
      match e {
        case DeleteOne(_, key) =>
          var pending := w.handlers[h].phase.pending;
          RemoveAllTwice(w.keys, {key}, pending - {key});
          assert {key} + (pending - {key}) == pending;
        case Finish(_) =>
          RemoveNothing(w.keys, {});
        case _ =>
      }
      AloneRun(Next(w, e), h, r, before, fetched || e == Respond(h, true), events[1..]);
    }
  }

  /** Run to completion with nothing in between, and in whatever order its deletions happen, a handler does what
      the one-at-a-time code does: serve a miss, when a good response comes; and leave the cache alone otherwise,
      in particular when the first look finds the request here or in another cache of the origin. */
  lemma AloneIsServe(w: World, h: nat, events: seq<Event>)
    requires IsRun(w, events) && InPhase(w, h, Looking)
    requires forall i :: 0 <= i < |events| ==> OnlyHandler(events[i], h)
    requires InPhase(After(w, events), h, Finished)
    ensures var r, fetched := w.handlers[h].request, Respond(h, true) in events;
            && After(w, events).keys == Serve(w.keys, r, fetched)
            && events != [] && events[0].Lookup?
            && (fetched ==> r !in w.keys && !events[0].foundElsewhere)
  {
    var r := w.handlers[h].request;
    AloneRun(w, h, r, w.keys, false, events);
    assert OnlyHandler(events[0], h);
    if events[0].foundElsewhere || r in w.keys {
      var next := Next(w, events[0]);
      assert events == [events[0]] + events[1..];
      FinishedStops(next, h, events[1..]);
    }
  }

  lemma FinishedStops(w: World, h: nat, events: seq<Event>)
    requires IsRun(w, events) && InPhase(w, h, Finished)
    requires forall i :: 0 <= i < |events| ==> OnlyHandler(events[i], h)
    ensures events == []
  {
    NothingAfterFinish(w, h);
  }

  lemma NothingAfterFinish(w: World, h: nat)
    requires InPhase(w, h, Finished)
    ensures forall e :: OnlyHandler(e, h) ==> !Enabled(w, e)
  {
  }
}
