/** Grounded days: which curated places a trip may use, and the rotation that hands them out. */
module Grounding {
  import opened Wrappers
  import opened Sequences
  import opened Clock
  import opened Numbers
  import opened Itinerary
  import opened Plan

  datatype Strength = Strong | Weak | Excluded

  /** A missing id is the empty text. */
  datatype Place = Place(
    id: string,
    name: string,
    category: string,
    duration: Option<nat>,
    outdoor: Option<bool>,
    rainFriendly: Option<bool>,
    strength: Strength
  )

  // ---------- the grounding context ----------

  function Key(place: Place): string {
    Lower(if place.id != "" then place.id else place.name)
  }

  predicate Usable(place: Place) {
    place.strength != Excluded
  }

  /** `unique_places`: of the places under one key only the first stays. */
  function Unique(places: seq<Place>): seq<Place> {
    if places == [] then []
    else
      var front, last := Unique(places[..|places| - 1]), places[|places| - 1];
      if KeySeen(places, |places| - 1) then front else front + [last]
  }

  predicate KeySeen(places: seq<Place>, k: nat)
    requires k < |places|
  {
    exists j :: 0 <= j < k && Key(places[j]) == Key(places[k])
  }

  method UniquePlaces(places: seq<Place>) returns (result: seq<Place>)
    ensures result == Unique(places)
  {
    hide Key, Unique, KeySeen, SeenKeys;
    var seen: set<string> := {};
    result := [];
    NothingSeen(places);
    for k := 0 to |places|
      invariant seen == SeenKeys(places, k)
      invariant result == Unique(places[..k])
    {
      var key := Key(places[k]);
      UniqueNext(places, k);
      SeenNext(places, k);
      if key in seen {
        continue;
      }
      seen := seen + {key};
      result := result + [places[k]];
    }
    assert places[..|places|] == places;
  }

  function SeenKeys(places: seq<Place>, k: nat): set<string>
    requires k <= |places|
  {
    set j | 0 <= j < k :: Key(places[j])
  }

  lemma SeenNext(places: seq<Place>, k: nat)
    requires k < |places|
    ensures Key(places[k]) in SeenKeys(places, k) <==> KeySeen(places, k)
    ensures SeenKeys(places, k + 1) == SeenKeys(places, k) + {Key(places[k])}
    ensures KeySeen(places, k) ==> SeenKeys(places, k + 1) == SeenKeys(places, k)
  {
    hide Key;
  }

  lemma NothingSeen(places: seq<Place>)
    ensures SeenKeys(places, 0) == {} && Unique(places[..0]) == []
  {
  }

  lemma UniqueNext(places: seq<Place>, k: nat)
    requires k < |places|
    ensures Unique(places[..k + 1]) ==
              if KeySeen(places, k) then Unique(places[..k]) else Unique(places[..k]) + [places[k]]
  {
    hide Key;
    assert places[..k + 1][..k] == places[..k];
    assert KeySeen(places[..k + 1], k) <==> KeySeen(places, k);
  }

  ghost predicate KeysDistinct(places: seq<Place>) {
    forall i, j :: 0 <= i < j < |places| ==> Key(places[i]) != Key(places[j])
  }

  lemma {:induction false} UniqueKeepsOnly(places: seq<Place>, place: Place)
    requires place in Unique(places)
    ensures place in places
  {
    hide Key;
    if places != [] && place != places[|places| - 1] {
      UniqueKeepsOnly(places[..|places| - 1], place);
    }
  }

  /** Keys no longer repeat. */
  lemma {:induction false} UniqueKeysDiffer(places: seq<Place>)
    ensures KeysDistinct(Unique(places))
  {
    hide Key;
    if places != [] {
      var last := |places| - 1;
      var front := Unique(places[..last]);
      UniqueKeysDiffer(places[..last]);
      forall i | 0 <= i < |front| && !KeySeen(places, last)
        ensures Key(front[i]) != Key(places[last])
      {
        UniqueKeepsOnly(places[..last], front[i]);
        var j :| 0 <= j < last && places[..last][j] == front[i];
        assert places[j] == front[i];
      }
    }
  }

  /** Every key is still there. */
  lemma {:induction false} UniqueCovers(places: seq<Place>, k: nat) returns (kept: Place)
    requires k < |places|
    ensures kept in Unique(places) && Key(kept) == Key(places[k])
  {
    hide Key;
    var last := |places| - 1;
    if k < last {
      kept := UniqueCovers(places[..last], k);
    } else if KeySeen(places, last) {
      var j :| 0 <= j < last && Key(places[j]) == Key(places[last]);
      kept := UniqueCovers(places[..last], j);
    } else {
      kept := places[last];
      assert Unique(places)[|Unique(places)| - 1] == kept;
    }
  }

  /** No earlier place goes by the same id, or by the same name where it has no id, case apart. */
  ghost predicate IsFirst(places: seq<Place>, k: nat) {
    k < |places| && forall j :: 0 <= j < k ==> Lower(Called(places[j])) != Lower(Called(places[k]))
  }

  ghost function Called(place: Place): string {
    if place.id == "" then place.name else place.id
  }

  /** `kept` are the places at the positions `at`, in their order, and these are all the first ones. */
  ghost predicate AreFirsts(places: seq<Place>, kept: seq<Place>, at: seq<nat>) {
    && |at| == |kept|
    && (forall i :: 0 <= i < |at| ==> IsFirst(places, at[i]) && kept[i] == places[at[i]])
    && (forall i, j :: 0 <= i < j < |at| ==> at[i] < at[j])
    && (forall k: nat :: IsFirst(places, k) ==> k in at)
  }

  lemma FirstOfLonger(places: seq<Place>, n: nat, k: nat)
    requires k < n <= |places|
    ensures IsFirst(places[..n], k) <==> IsFirst(places, k)
  {
    hide Lower;
  }

  lemma LastIsFirst(places: seq<Place>)
    requires places != []
    ensures IsFirst(places, |places| - 1) <==> !KeySeen(places, |places| - 1)
  {
    hide Lower;
  }

  /** Of the places under one key the first is kept, in its place. */
  lemma {:induction false} FirstsAreKept(places: seq<Place>) returns (at: seq<nat>)
    ensures AreFirsts(places, Unique(places), at)
  {
    hide Key, IsFirst;
    at := [];
    if places == [] {
      NoFirsts();
    } else {
      var n := |places| - 1;
      var before := FirstsAreKept(places[..n]);
      forall k: nat | k < n
        ensures IsFirst(places[..n], k) <==> IsFirst(places, k)
      {
        FirstOfLonger(places, n, k);
      }
      LastIsFirst(places);
      at := if KeySeen(places, n) then before else before + [n];
      FirstsSnoc(places, Unique(places[..n]), before);
    }
  }

  lemma NoFirsts()
    ensures AreFirsts([], [], [])
  {
  }

  lemma FirstsSnoc(places: seq<Place>, kept: seq<Place>, at: seq<nat>)
    requires places != [] && AreFirsts(places[..|places| - 1], kept, at)
    requires forall k: nat :: k < |places| - 1 ==> (IsFirst(places[..|places| - 1], k) <==> IsFirst(places, k))
    ensures !IsFirst(places, |places| - 1) ==> AreFirsts(places, kept, at)
    ensures IsFirst(places, |places| - 1) ==> AreFirsts(places, kept + [places[|places| - 1]], at + [|places| - 1])
  {
    var n := |places| - 1;
    forall i | 0 <= i < |at|
      ensures at[i] < n
    {
      FirstIsThere(places[..n], at[i]);
    }
    forall k: nat | IsFirst(places, k)
      ensures k == n || (k < n && k in at)
    {
      FirstIsThere(places, k);
    }
    hide IsFirst;
  }

  lemma FirstIsThere(places: seq<Place>, k: nat)
    requires IsFirst(places, k)
    ensures k < |places|
  {
  }

  /** The places a grounding context ends up with. */
  function Context(places: seq<Place>): seq<Place> {
    Unique(Filter(places, Usable))
  }

  /** No excluded place, no key twice, and every usable key still there. */
  lemma ContextIsClean(places: seq<Place>)
    ensures KeysDistinct(Context(places))
    ensures forall place :: place in Context(places) ==> Usable(place) && place in places
    ensures forall place :: place in places && Usable(place) ==> exists p :: p in Context(places) && Key(p) == Key(place)
  {
    hide Key;
    var usable := Filter(places, Usable);
    FilterMembers(places, Usable);
    UniqueKeysDiffer(usable);
    forall place | place in Context(places)
      ensures Usable(place) && place in places
    {
      UniqueKeepsOnly(usable, place);
    }
    forall place | place in places && Usable(place)
      ensures exists p :: p in Context(places) && Key(p) == Key(place)
    {
      var k :| 0 <= k < |usable| && usable[k] == place;
      var kept := UniqueCovers(usable, k);
    }
  }

  // ---------- the rotation ----------

  predicate RainSafe(place: Place) {
    place.rainFriendly == Some(true) || place.outdoor == Some(false)
  }

  /** `_grounding_candidates`: on a rainy day the rain-safe places, if there are any. */
  function Candidates(places: seq<Place>, rainy: bool): (r: seq<Place>)
    ensures places != [] ==> r != []
  {
    var safe := Filter(places, RainSafe);
    if rainy && safe != [] then safe else places
  }

  /** Which of `n` candidates the `index`-th item of day `day` gets, `size` items a day. */
  function Pick(n: nat, size: nat, day: nat, index: nat): (p: nat)
    requires n > 0 && day >= 1
    ensures p < n
  {
    ((day - 1) * size + index) % n
  }

  function DayPlaces(places: seq<Place>, size: nat, day: nat): seq<Place>
    requires places != [] && day >= 1
  {
    seq(size, index requires 0 <= index < size => places[Pick(|places|, size, day, index)])
  }

  /** With at least as many candidates as items a day, no day repeats a place. */
  lemma DayRepeatsNothing(places: seq<Place>, size: nat, day: nat, i: nat, j: nat)
    requires KeysDistinct(places) && size <= |places| && day >= 1 && i < j < size
    ensures places != []
    ensures Key(DayPlaces(places, size, day)[i]) != Key(DayPlaces(places, size, day)[j])
  {
    hide Key;
    PicksDiffer(|places|, (day - 1) * size, i, j);
    var a, b := Pick(|places|, size, day, i), Pick(|places|, size, day, j);
    if a < b {
      assert Key(places[a]) != Key(places[b]);
    } else {
      assert Key(places[b]) != Key(places[a]);
    }
  }

  lemma PicksDiffer(n: nat, t: nat, i: nat, j: nat)
    requires i < j < i + n
    ensures (t + i) % n != (t + j) % n
  {
    NoWrapWithin(t + i, n, j - i);
    assert t + i + (j - i) == t + j;
  }

  lemma {:induction false} FilterKeepsKeysDistinct(places: seq<Place>, keep: Place -> bool)
    requires KeysDistinct(places)
    ensures KeysDistinct(Filter(places, keep))
  {
    hide Key;
    if places != [] {
      assert KeysDistinct(places[1..]);
      FilterKeepsKeysDistinct(places[1..], keep);
      FilterMembers(places[1..], keep);
      var rest := Filter(places[1..], keep);
      forall j | 0 <= j < |rest|
        ensures Key(places[0]) != Key(rest[j])
      {
        assert rest[j] in places[1..];
        var k :| 0 <= k < |places[1..]| && places[1..][k] == rest[j];
        assert places[k + 1] == rest[j];
      }
    }
  }

  /** The same on rainy days: the rain-safe candidates keep distinct keys. */
  lemma CandidatesStayDistinct(places: seq<Place>, rainy: bool)
    requires KeysDistinct(places)
    ensures KeysDistinct(Candidates(places, rainy))
    ensures rainy && (exists place :: place in places && RainSafe(place)) ==>
              forall place :: place in Candidates(places, rainy) ==> RainSafe(place)
  {
    FilterKeepsKeysDistinct(places, RainSafe);
    FilterMembers(places, RainSafe);
  }

  /** Wet or dry, no grounded day repeats a place when there is a candidate for every item. */
  lemma NoPlaceTwiceADay(places: seq<Place>, rainy: bool, size: nat, day: nat, i: nat, j: nat)
    requires KeysDistinct(places) && size <= |Candidates(places, rainy)| && day >= 1 && i < j < size
    ensures Candidates(places, rainy) != []
    ensures var chosen := DayPlaces(Candidates(places, rainy), size, day); Key(chosen[i]) != Key(chosen[j])
  {
    CandidatesStayDistinct(places, rainy);
    DayRepeatsNothing(Candidates(places, rainy), size, day, i, j);
  }

  // ---------- fairness over the trip ----------

  /** Every place handed out in the first `days` days, in order. */
  function TripPlaces(places: seq<Place>, size: nat, days: nat): seq<Place>
    requires places != []
  {
    if days == 0 then [] else TripPlaces(places, size, days - 1) + DayPlaces(places, size, days)
  }

  /** The first `count` places of the plain rotation. */
  function Rotation(places: seq<Place>, count: nat): seq<Place>
    requires places != []
  {
    if count == 0 then [] else Rotation(places, count - 1) + [places[(count - 1) % |places|]]
  }

  lemma {:induction false} RotationAt(places: seq<Place>, count: nat)
    requires places != []
    ensures |Rotation(places, count)| == count
    ensures forall t :: 0 <= t < count ==> Rotation(places, count)[t] == places[t % |places|]
  {
    if count > 0 {
      RotationAt(places, count - 1);
    }
  }

  /** Day after day the trip goes through one unbroken rotation. */
  lemma {:induction false} TripIsRotation(places: seq<Place>, size: nat, days: nat)
    requires places != []
    ensures TripPlaces(places, size, days) == Rotation(places, days * size)
  {
    if days > 0 {
      TripIsRotation(places, size, days - 1);
      var t := (days - 1) * size;
      assert days * size == t + size;
      RotationExtends(places, t, size);
      assert DayPlaces(places, size, days) == Stretch(places, t, size);
    }
  }

  function Stretch(places: seq<Place>, t: nat, size: nat): seq<Place>
    requires places != []
  {
    seq(size, i requires 0 <= i < size => places[(t + i) % |places|])
  }

  lemma {:induction false} RotationExtends(places: seq<Place>, t: nat, size: nat)
    requires places != []
    ensures Rotation(places, t + size) == Rotation(places, t) + Stretch(places, t, size)
  {
    RotationAt(places, t + size);
    RotationAt(places, t);
  }

  function Uses(key: string): Place -> bool {
    (place: Place) => Key(place) == key
  }

  lemma {:induction false} RotationUse(places: seq<Place>, count: nat, p: nat)
    requires KeysDistinct(places) && p < |places|
    ensures Count(Rotation(places, count), Uses(Key(places[p]))) ==
              count / |places| + (if p < count % |places| then 1 else 0)
  {
    hide Key;
    var n := |places|;
    if count == 0 {
      DivModUnique(0, n, 0, 0);
    } else {
      var t := count - 1;
      RotationUse(places, t, p);
      ModStep(t, n);
      CountConcat(Rotation(places, t), [places[t % n]], Uses(Key(places[p])));
      assert Key(places[t % n]) == Key(places[p]) <==> t % n == p;
    }
  }

  /** Without rain, over any number of days, no place is used more than once more than another. */
  lemma RotationIsFair(places: seq<Place>, size: nat, days: nat, p: nat, q: nat)
    requires KeysDistinct(places) && p < |places| && q < |places|
    ensures var trip := TripPlaces(places, size, days);
            Count(trip, Uses(Key(places[p]))) <= Count(trip, Uses(Key(places[q]))) + 1
  {
    TripIsRotation(places, size, days);
    RotationUse(places, days * size, p);
    RotationUse(places, days * size, q);
  }

  // ---------- the items ----------

  function TimesFor(size: nat): (times: seq<string>)
    requires 3 <= size <= 5
    ensures |times| == size
  {
    if size == 3 then ["10:00", "13:00", "16:30"]
    else if size == 4 then ["09:00", "12:30", "15:30", "19:00"]
    else ["08:30", "11:00", "13:00", "15:30", "20:00"]
  }

  function GroundedNote(place: Place): string {
    "Grounded in curated knowledge as a " + place.category + "."
    + (match place.duration case Some(m) => " Typical visit: about " + Decimal(m) + " minutes." case None => "")
    + (if place.outdoor == Some(true) then " Outdoor; check weather before going." else "")
    + (if place.rainFriendly == Some(true) then " Suitable as a rain-friendly option." else "")
  }

  function GroundedItem(place: Place, time: string): PlanItem {
    PlanItem(time, None, if place.category in ["restaurant", "cafe", "market"] then "food" else "place",
             place.name, Some(GroundedNote(place)), None, None, Some(Estimate(Some(0.0), Some("other"))))
  }

  /** `_grounded_items_for_day`. */
  function GroundedItems(places: seq<Place>, rainy: bool, pace: Pace, day: nat): seq<PlanItem>
    requires places != [] && day >= 1
  {
    var size := ItemsPerDay(pace);
    var chosen := DayPlaces(Candidates(places, rainy), size, day);
    seq(size, i requires 0 <= i < size => GroundedItem(chosen[i], TimesFor(size)[i]))
  }
}
