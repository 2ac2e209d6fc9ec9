/** The steps of interleaved handlers, each said from the cache and the handler before it, and that every handler can
    always be brought to its end. */
module AssetCacheSteps {
  import opened Sequences
  import opened AssetCache

  // ---------- the request list ----------

  ghost predicate IsStatic(r: Request) {
    "/_next/static/" <= r.path
  }

  ghost function Other(r: Request): Request -> bool {
    (k: Request) => k != r
  }

  lemma {:induction false} RemovedOne(keys: seq<Request>, r: Request)
    ensures RemoveAll(keys, {r}) == Filter(keys, Other(r))
  {
    if keys != [] {
      RemovedOne(keys[1..], r);
    }
  }

  /** The other entries in their order, then the new one. */
  ghost predicate IsPut(before: seq<Request>, after: seq<Request>, r: Request) {
    after == Filter(before, Other(r)) + [r]
  }

  /** An asset that at least 120 assets were stored after. */
  ghost predicate IsStale(keys: seq<Request>, k: Request) {
    IsStatic(k) && exists i :: 0 <= i < |keys| && keys[i] == k && Count(keys[i + 1..], IsStatic) >= 120
  }

  lemma {:induction false} StaticAreCounted(keys: seq<Request>)
    ensures |RuntimeKeys(keys)| == Count(keys, IsStatic)
  {
    if keys != [] {
      StaticAreCounted(keys[1..]);
    }
  }

  lemma StaleAt(keys: seq<Request>, i: nat)
    requires Distinct(keys) && i < |keys|
    ensures keys[i] in Expired(keys) <==> IsStatic(keys[i]) && Count(keys[i + 1..], IsStatic) >= 120
  {
    var k, front, back := keys[i], RuntimeKeys(keys[..i]), RuntimeKeys(keys[i + 1..]);
    RuntimeMembers(keys);
    StaticAreCounted(keys[i + 1..]);
    ExpiredAreRuntime(keys);
    if IsStatic(k) {
      assert keys == keys[..i] + ([k] + keys[i + 1..]);
      RuntimeConcat(keys[..i], [k] + keys[i + 1..]);
      RuntimeConcat([k], keys[i + 1..]);
      var runtime := RuntimeKeys(keys);
      assert runtime == front + ([k] + back) && runtime[|front|] == k;
      hide RuntimeKeys;
      assert forall j :: 0 <= j < |runtime| && runtime[j] == k ==> j == |front|;
      var n := |runtime| - |LastOf(runtime, MAX_RUNTIME_ASSETS)|;
      assert |back| >= 120 <==> |front| < n;
      if |front| < n {
        assert runtime[..n][|front|] == k;
      }
    }
  }

  lemma ExpiredAreStale(keys: seq<Request>)
    requires Distinct(keys)
    ensures forall k :: k in ElementsOf(Expired(keys)) <==> IsStale(keys, k)
  {
    ExpiredAreRuntime(keys);
    hide Expired;
    forall k
      ensures k in Expired(keys) <==> IsStale(keys, k)
    {
      if k in Expired(keys) {
        var i :| 0 <= i < |keys| && keys[i] == k;
        StaleAt(keys, i);
      }
      if IsStale(keys, k) {
        var i :| 0 <= i < |keys| && keys[i] == k && Count(keys[i + 1..], IsStatic) >= 120;
        StaleAt(keys, i);
      }
    }
  }

  // ---------- one step ----------

  /** Only the phase of handler `h` may differ. */
  ghost predicate OnlyMoves(w: World, after: World, h: nat) {
    && h < |w.handlers| && |after.handlers| == |w.handlers|
    && after.handlers[h].request == w.handlers[h].request
    && forall g :: 0 <= g < |w.handlers| && g != h ==> after.handlers[g] == w.handlers[g]
  }

  /** A miss that is found nowhere is fetched, a good response is stored, the key list is read, the stale assets are
      deleted one by one. */
  ghost predicate IsStep(w: World, e: Event, after: World) {
    match e
    case Arrive(request) => after == World(w.keys, w.handlers + [Handler(request, Looking)])
    case Install(request) => after.handlers == w.handlers && IsPut(w.keys, after.keys, request)
    case Lookup(h, foundElsewhere) =>
      && OnlyMoves(w, after, h) && after.keys == w.keys
      && after.handlers[h].phase == if !foundElsewhere && w.handlers[h].request !in w.keys then Fetching else Finished
    case Respond(h, ok) =>
      && OnlyMoves(w, after, h) && after.keys == w.keys
      && after.handlers[h].phase == if ok then Storing else Finished
    case Store(h) =>
      && OnlyMoves(w, after, h) && IsPut(w.keys, after.keys, w.handlers[h].request)
      && after.handlers[h].phase == AwaitingKeys
    case Snapshot(h) =>
      && OnlyMoves(w, after, h) && after.keys == w.keys && after.handlers[h].phase.Deleting?
      && forall k :: k in after.handlers[h].phase.pending <==> IsStale(w.keys, k)
    case DeleteOne(h, key) =>
      && OnlyMoves(w, after, h) && w.handlers[h].phase.Deleting? && after.keys == Filter(w.keys, Other(key))
      && after.handlers[h].phase == Deleting(w.handlers[h].phase.pending - {key})
    case Finish(h) =>
      && OnlyMoves(w, after, h) && after.keys == w.keys && after.handlers[h].phase == Finished
  }

  lemma StepsAreSteps(w: World, e: Event)
    requires WellFormed(w) && Enabled(w, e)
    ensures IsStep(w, e, Next(w, e))
  {
    hide RemoveAll, Expired, IsStale;
    match e
    case Install(request) => RemovedOne(w.keys, request);
    case Store(h) => RemovedOne(w.keys, w.handlers[h].request);
    case Snapshot(h) => ExpiredAreStale(w.keys);
    case DeleteOne(h, key) => RemovedOne(w.keys, key);
    case _ =>
  }

  /** Which events a handler is ready for: one kind in each phase, none once it is finished. */
  lemma EnabledByPhase(w: World, h: nat, e: Event)
    requires h < |w.handlers| && OnlyHandler(e, h)
    ensures Enabled(w, e) <==>
              match w.handlers[h].phase
              case Looking => e.Lookup?
              case Fetching => e.Respond?
              case Storing => e.Store?
              case AwaitingKeys => e.Snapshot?
              case Deleting(pending) => if pending == {} then e.Finish? else e.DeleteOne? && e.key in pending
              case Finished => false
  {
  }

  // ---------- every handler can finish ----------

  ghost predicate IsRunOf(w: World, h: nat, events: seq<Event>) {
    IsRun(w, events) && forall i :: 0 <= i < |events| ==> OnlyHandler(events[i], h)
  }

  lemma RunCons(w: World, h: nat, e: Event, events: seq<Event>)
    requires Enabled(w, e) && OnlyHandler(e, h) && IsRunOf(Next(w, e), h, events)
    ensures IsRunOf(w, h, [e] + events) && After(w, [e] + events) == After(Next(w, e), events)
  {
    assert ([e] + events)[1..] == events;
  }

  /** From wherever it stands, a handler can be run to its end without the others. */
  lemma {:induction false} CanFinish(w: World, h: nat) returns (events: seq<Event>)
    requires h < |w.handlers|
    ensures IsRunOf(w, h, events) && InPhase(After(w, events), h, Finished)
    decreases PhasesLeft(w.handlers[h].phase), PendingLeft(w.handlers[h].phase)
  {
    hide RemoveAll, Expired, IsRun, After;
    var phase := w.handlers[h].phase;
    if phase.Finished? {
      events := [];
      NothingToRun(w, h);
    } else {
      var e := NextOf(w, h);
      var later := CanFinish(Next(w, e), h);
      RunCons(w, h, e, later);
      events := [e] + later;
    }
  }

  lemma NothingToRun(w: World, h: nat)
    ensures IsRunOf(w, h, []) && After(w, []) == w
  {
  }

  ghost function PhasesLeft(phase: Phase): nat {
    match phase
    case Looking => 5
    case Fetching => 4
    case Storing => 3
    case AwaitingKeys => 2
    case Deleting(_) => 1
    case Finished => 0
  }

  ghost function PendingLeft(phase: Phase): nat {
    if phase.Deleting? then |phase.pending| else 0
  }

  lemma NextOf(w: World, h: nat) returns (e: Event)
    requires h < |w.handlers| && !w.handlers[h].phase.Finished?
    ensures Enabled(w, e) && OnlyHandler(e, h) && h < |Next(w, e).handlers|
    ensures var before, after := w.handlers[h].phase, Next(w, e).handlers[h].phase;
            || PhasesLeft(after) < PhasesLeft(before)
            || (PhasesLeft(after) == PhasesLeft(before) && PendingLeft(after) < PendingLeft(before))
  {
    hide RemoveAll, Expired;
    match w.handlers[h].phase {
      case Looking => e := Lookup(h, false);
      case Fetching => e := Respond(h, true);
      case Storing => e := Store(h);
      case AwaitingKeys => e := Snapshot(h);
      case Deleting(pending) =>
        if pending == {} {
          e := Finish(h);
        } else {
          var key :| key in pending;
          e := DeleteOne(h, key);
        }
    }
  }
}
