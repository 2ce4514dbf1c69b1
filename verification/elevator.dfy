/** The elevator of the simulation (elevator.py): a record of floor range, capacity,
    position, travel direction, the destinations of the passengers on board and the
    requested stops, with the transitions the server drives it through. */
module ElevatorModel {
  import opened Wrappers
  import opened Text
  import opened Collections

  /** `direction` is 1 (up), -1 (down) or 0 (idle). `dests` holds one entry per passenger
      on board (`passenger_destinations`); `stops` maps a floor to the call directions
      requested there (`stops_requested`; a destination of someone on board is a key
      with possibly no direction). */
  datatype Elevator = Elevator(
    lowest: int,
    highest: int,
    capacity: int,
    floor: int,
    direction: int,
    dests: seq<int>,
    stops: map<int, set<int>>,
    stoppedThisStep: bool,
    movedThisStep: bool)

  /** Why the constructor raises `ValueError`. */
  datatype InitError = LowestAboveHighest | CapacityNotPositive | StartOutOfRange

  /** `current_load`. */
  function Load(e: Elevator): nat {
    |e.dests|
  }

  /** `_is_valid_floor`. */
  predicate IsValidFloor(e: Elevator, f: int) {
    e.lowest <= f <= e.highest
  }

  /** The invariant every reachable elevator satisfies. */
  ghost predicate Valid(e: Elevator) {
    && e.lowest <= e.floor <= e.highest
    && e.capacity >= 1
    && Load(e) <= e.capacity
    && e.direction in {-1, 0, 1}
    && (forall d :: d in e.dests ==> IsValidFloor(e, d) && d in e.stops)
    && (forall f :: f in e.stops ==> IsValidFloor(e, f) && e.stops[f] <= {-1, 1})
  }

  /** Floor range and capacity never change after construction. */
  predicate SameConfig(a: Elevator, b: Elevator) {
    a.lowest == b.lowest && a.highest == b.highest && a.capacity == b.capacity
  }

  /** `Elevator.__init__`: checks in the source's order, then an idle, empty car. */
  function New(lowest: int, highest: int, capacity: int, start: int): (r: Result<Elevator, InitError>)
    ensures r.Success? <==> lowest <= highest && capacity >= 1 && lowest <= start <= highest
    ensures lowest > highest ==> r == Failure(LowestAboveHighest)
    ensures lowest <= highest && capacity < 1 ==> r == Failure(CapacityNotPositive)
    ensures lowest <= highest && capacity >= 1 && !(lowest <= start <= highest) ==> r == Failure(StartOutOfRange)
    ensures r.Success? ==>
      && Valid(r.value)
      && r.value.lowest == lowest && r.value.highest == highest && r.value.capacity == capacity
      && r.value.floor == start && r.value.direction == 0
      && Load(r.value) == 0 && r.value.stops == map[]
  {
    if lowest > highest then Failure(LowestAboveHighest)
    else if capacity < 1 then Failure(CapacityNotPositive)
    else if !(lowest <= start <= highest) then Failure(StartOutOfRange)
    else Success(Elevator(lowest, highest, capacity, start, 0, [], map[], false, false))
  }

  /** `_display_floor`: the ground floor 0 is shown as "G", any other floor in decimal. */
  function DisplayFloor(f: int): (r: string)
    ensures r == "G" <==> f == 0
    ensures f != 0 ==> ParseCanonical(r) == Some(f)
  {
    if f == 0 then "G"
    else
      IntToStringRoundTrip(f);
      IntToString(f)
  }

  /** The directions requested at floor `f` (`stops_requested.get(f, set())`). */
  function StopsAt(e: Elevator, f: int): set<int> {
    if f in e.stops then e.stops[f] else {}
  }

  /** `add_external_request`: a call at a valid floor for direction up or down is
      recorded; an idle car takes the call's direction. Anything else is ignored. */
  function AddExternalRequest(e: Elevator, f: int, callDir: int): (r: Elevator)
    ensures !(IsValidFloor(e, f) && (callDir == 1 || callDir == -1)) ==> r == e
    ensures IsValidFloor(e, f) && (callDir == 1 || callDir == -1) ==>
      && r.stops.Keys == e.stops.Keys + {f}
      && StopsAt(r, f) == StopsAt(e, f) + {callDir}
      && (forall g :: g in e.stops && g != f ==> r.stops[g] == e.stops[g])
      && r.direction == (if e.direction == 0 then callDir else e.direction)
    ensures SameConfig(r, e) && r.floor == e.floor && r.dests == e.dests
    ensures r.stoppedThisStep == e.stoppedThisStep && r.movedThisStep == e.movedThisStep
    ensures Valid(e) ==> Valid(r)
  {
    if !IsValidFloor(e, f) then e
    else if callDir != 1 && callDir != -1 then e
    else
      var stops := e.stops[f := StopsAt(e, f) + {callDir}];
      e.(stops := stops, direction := if e.direction == 0 then callDir else e.direction)
  }

  /** `board_passenger`: fails, changing nothing, for an invalid destination, the current
      floor, or a full car; otherwise one more passenger rides to `dest`, and `dest`
      becomes a requested stop (keeping any call directions already recorded there). */
  function BoardPassenger(e: Elevator, dest: int): (r: (Elevator, bool))
    ensures r.1 <==> IsValidFloor(e, dest) && dest != e.floor && Load(e) < e.capacity
    ensures !r.1 ==> r.0 == e
    ensures r.1 ==>
      && r.0.dests == e.dests + [dest]
      && r.0.stops.Keys == e.stops.Keys + {dest}
      && (forall g :: g in e.stops ==> r.0.stops[g] == e.stops[g])
    ensures SameConfig(r.0, e) && r.0.floor == e.floor && r.0.direction == e.direction
    ensures r.0.stoppedThisStep == e.stoppedThisStep && r.0.movedThisStep == e.movedThisStep
    ensures Valid(e) ==> Valid(r.0)
  {
    if !IsValidFloor(e, dest) || dest == e.floor || Load(e) >= e.capacity then (e, false)
    else
      var stops := if dest in e.stops then e.stops else e.stops[dest := {}];
      (e.(dests := e.dests + [dest], stops := stops), true)
  }

  function Min(a: int, b: int): int {
    if a <= b then a else b
  }

  /** `for _ in range(n): if not board_passenger(dest): break`, with the number boarded.
      Boarding stops at the first failure, and a failure never turns into a success for
      the same destination, so exactly as many board as there is room for. */
  function BoardMany(e: Elevator, dest: int, n: nat): (r: (Elevator, nat))
    ensures Load(e) <= e.capacity ==>
      r.1 == if IsValidFloor(e, dest) && dest != e.floor then Min(n, e.capacity - Load(e)) else 0
    ensures r.0.dests == e.dests + Repeat(dest, r.1)
    ensures r.0.stops.Keys == e.stops.Keys + (if r.1 > 0 then {dest} else {})
    ensures forall g :: g in e.stops ==> r.0.stops[g] == e.stops[g]
    ensures r.1 == 0 ==> r.0 == e
    ensures SameConfig(r.0, e) && r.0.floor == e.floor && r.0.direction == e.direction
    ensures r.0.stoppedThisStep == e.stoppedThisStep && r.0.movedThisStep == e.movedThisStep
    ensures Valid(e) ==> Valid(r.0)
    decreases n
  {
    if n == 0 then (e, 0)
    else
      var (e1, ok) := BoardPassenger(e, dest);
      if !ok then (e, 0)
      else
        var (e2, k) := BoardMany(e1, dest, n - 1);
        assert e2.dests == e.dests + [dest] + Repeat(dest, k);
        assert Repeat(dest, k + 1) == [dest] + Repeat(dest, k);
        (e2, k + 1)
  }

  /** `_alight_passengers`: everyone riding to the current floor leaves; the others stay
      in their original order. Returns how many left. */
  function Alight(e: Elevator): (r: (Elevator, nat))
    ensures r.1 == multiset(e.dests)[e.floor]
    ensures e.floor !in r.0.dests
    ensures Load(r.0) == Load(e) - r.1
    ensures IsSubsequence(r.0.dests, e.dests)
    ensures forall y :: y != e.floor ==> multiset(r.0.dests)[y] == multiset(e.dests)[y]
    ensures r.0 == e.(dests := r.0.dests)
  {
    var n := multiset(e.dests)[e.floor];
    if n > 0 then (e.(dests := RemoveAll(e.dests, e.floor)), n)
    else
      assert e.floor !in e.dests;
      assert e.dests == RemoveAll(e.dests, e.floor) by { RemoveAllAbsent(e.dests, e.floor); }
      (e, n)
  }

  lemma {:induction false} RemoveAllAbsent(s: seq<int>, x: int)
    requires x !in s
    ensures RemoveAll(s, x) == s
  {
    if |s| > 0 {
      RemoveAllAbsent(s[1..], x);
      assert s == [s[0]] + s[1..];
    }
  }

  // ---------------------------------------------------------------------------
  // Display helpers

  /** What `_sorted_stops_display` returns: the string "None", or a list of labels. */
  datatype StopsDisplay = NoStops | Labels(labels: seq<string>)

  /** The sort key of `_sorted_stops_display`: 0 for "G", otherwise `int(label)`. */
  function SortKey(s: string): int {
    if s == "G" then 0 else ParseCanonical(s).GetOr(0)
  }

  lemma SortKeyOfDisplay(f: int)
    ensures SortKey(DisplayFloor(f)) == f
  {
  }

  function DisplayAll(fs: seq<int>): (r: seq<string>)
    ensures |r| == |fs| && forall i :: 0 <= i < |fs| ==> r[i] == DisplayFloor(fs[i])
  {
    if |fs| == 0 then [] else [DisplayFloor(fs[0])] + DisplayAll(fs[1..])
  }

  /** `_sorted_stops_display`: one label per requested floor, in ascending floor order. */
  function SortedStopsDisplay(e: Elevator): (r: StopsDisplay)
    ensures r.NoStops? <==> e.stops == map[]
    ensures r.Labels? ==>
      && |r.labels| == |e.stops.Keys|
      && (forall i, j :: 0 <= i < j < |r.labels| ==> SortKey(r.labels[i]) < SortKey(r.labels[j]))
      && (forall f :: f in e.stops <==> DisplayFloor(f) in r.labels)
  {
    if e.stops == map[] then NoStops
    else
      var floors := SortedElements(e.stops.Keys);
      var labels := DisplayAll(floors);
      SortedLabels(floors, labels, e.stops.Keys);
      Labels(labels)
  }

  lemma SortedLabels(floors: seq<int>, labels: seq<string>, keys: set<int>)
    requires StrictlyIncreasing(floors) && (forall x :: x in floors <==> x in keys)
    requires |labels| == |floors| && forall i :: 0 <= i < |floors| ==> labels[i] == DisplayFloor(floors[i])
    ensures forall i, j :: 0 <= i < j < |labels| ==> SortKey(labels[i]) < SortKey(labels[j])
    ensures forall f :: f in keys <==> DisplayFloor(f) in labels
  {
    forall i | 0 <= i < |labels|
      ensures SortKey(labels[i]) == floors[i]
    {
      SortKeyOfDisplay(floors[i]);
    }
    forall f
      ensures f in keys <==> DisplayFloor(f) in labels
    {
      if DisplayFloor(f) in labels {
        var i :| 0 <= i < |labels| && labels[i] == DisplayFloor(f);
        SortKeyOfDisplay(f);
        SortKeyOfDisplay(floors[i]);
        assert floors[i] == f;
      }
      if f in keys {
        var i := IndexOf(floors, f);
        assert labels[i] == DisplayFloor(f);
      }
    }
  }

  /** One entry of `_passenger_dest_summary`: "<count><arrow><floor>". */
  datatype SummaryPart = SummaryPart(count: nat, arrow: char, floor: int)

  /** The arrow beside a destination: towards it, or the travel direction when the
      destination is the current floor ("●" when idle). */
  function Arrow(e: Elevator, f: int): char {
    if f > e.floor then '▲'
    else if f < e.floor then '▼'
    else if e.direction == 0 then '●'
    else if e.direction == 1 then '▲'
    else '▼'
  }

  function Total(parts: seq<SummaryPart>): nat {
    if |parts| == 0 then 0 else Total(parts[..|parts| - 1]) + parts[|parts| - 1].count
  }

  function PartsOf(e: Elevator, floors: seq<int>): (r: seq<SummaryPart>)
    ensures |r| == |floors|
    ensures forall i :: 0 <= i < |floors| ==>
      r[i] == SummaryPart(multiset(e.dests)[floors[i]], Arrow(e, floors[i]), floors[i])
  {
    if |floors| == 0 then []
    else [SummaryPart(multiset(e.dests)[floors[0]], Arrow(e, floors[0]), floors[0])] + PartsOf(e, floors[1..])
  }

  /** `Counter(passenger_destinations)` over its sorted keys: one entry per distinct
      destination, ascending, with the number of passengers riding there. */
  function SummaryParts(e: Elevator): (r: seq<SummaryPart>)
    ensures forall i, j :: 0 <= i < j < |r| ==> r[i].floor < r[j].floor
    ensures forall f :: f in e.dests <==> exists i :: 0 <= i < |r| && r[i].floor == f
    ensures forall i :: 0 <= i < |r| ==>
      r[i].count == multiset(e.dests)[r[i].floor] && r[i].count >= 1 && r[i].arrow == Arrow(e, r[i].floor)
    ensures Total(r) == Load(e)
  {
    var floors := SortedElements(DestFloors(e));
    SummaryPartsFacts(e, floors);
    PartsOf(e, floors)
  }

  lemma SummaryPartsFacts(e: Elevator, floors: seq<int>)
    requires StrictlyIncreasing(floors) && forall x :: x in floors <==> x in DestFloors(e)
    ensures var parts := PartsOf(e, floors);
      && (forall i, j :: 0 <= i < j < |parts| ==> parts[i].floor < parts[j].floor)
      && (forall f :: f in e.dests <==> exists i :: 0 <= i < |parts| && parts[i].floor == f)
      && (forall i :: 0 <= i < |parts| ==>
           parts[i].count == multiset(e.dests)[parts[i].floor] && parts[i].count >= 1
           && parts[i].arrow == Arrow(e, parts[i].floor))
      && Total(parts) == Load(e)
  {
    PartsCover(e, floors, PartsOf(e, floors));
    PartsCounts(e, floors);
    PartsTotal(e, floors);
    PartsShape(e, floors);
  }

  lemma PartsShape(e: Elevator, floors: seq<int>)
    requires StrictlyIncreasing(floors)
    ensures var parts := PartsOf(e, floors);
      && (forall i, j :: 0 <= i < j < |parts| ==> parts[i].floor < parts[j].floor)
      && (forall i :: 0 <= i < |parts| ==>
           parts[i].count == multiset(e.dests)[parts[i].floor] && parts[i].arrow == Arrow(e, parts[i].floor))
  {
    var parts := PartsOf(e, floors);
    forall i, j | 0 <= i < j < |parts| ensures parts[i].floor < parts[j].floor {
      assert parts[i].floor == floors[i] && parts[j].floor == floors[j];
    }
  }

  /** Parts that follow `floors` one for one cover exactly the passengers' destinations. */
  lemma PartsCover(e: Elevator, floors: seq<int>, parts: seq<SummaryPart>)
    requires forall x :: x in floors <==> x in DestFloors(e)
    requires |parts| == |floors| && forall i :: 0 <= i < |floors| ==> parts[i].floor == floors[i]
    ensures forall f :: f in e.dests <==> exists i :: 0 <= i < |parts| && parts[i].floor == f
  {
    forall f | f in e.dests
      ensures exists i :: 0 <= i < |parts| && parts[i].floor == f
    {
      assert f in DestFloors(e);
      var i := IndexOf(floors, f);
      assert parts[i].floor == floors[i];
    }
    forall i | 0 <= i < |parts|
      ensures parts[i].floor in e.dests
    {
      assert floors[i] in floors;
      assert floors[i] in DestFloors(e);
    }
  }

  lemma PartsCounts(e: Elevator, floors: seq<int>)
    requires forall x :: x in floors <==> x in DestFloors(e)
    ensures var parts := PartsOf(e, floors);
      forall i :: 0 <= i < |parts| ==> parts[i].count >= 1
  {
    var parts := PartsOf(e, floors);
    forall i | 0 <= i < |parts|
      ensures parts[i].count >= 1
    {
      assert floors[i] in DestFloors(e);
    }
  }

  lemma PartsTotal(e: Elevator, floors: seq<int>)
    requires StrictlyIncreasing(floors) && forall x :: x in floors <==> x in DestFloors(e)
    ensures Total(PartsOf(e, floors)) == Load(e)
  {
    var parts := PartsOf(e, floors);
    assert forall d :: d in e.dests ==> d in floors by {
      forall d | d in e.dests ensures d in floors { assert d in DestFloors(e); }
    }
    CountsCoverLoad(floors, e.dests);
    TotalIsCountSum(parts, floors, e.dests);
  }

  /** Sum of the multiplicities in `s` of the elements of `xs`. */
  function CountSum(xs: seq<int>, s: seq<int>): nat {
    if |xs| == 0 then 0 else CountSum(xs[..|xs| - 1], s) + multiset(s)[xs[|xs| - 1]]
  }

  lemma {:induction false} TotalIsCountSum(parts: seq<SummaryPart>, xs: seq<int>, s: seq<int>)
    requires |parts| == |xs|
    requires forall i :: 0 <= i < |xs| ==> parts[i].count == multiset(s)[xs[i]]
    ensures Total(parts) == CountSum(xs, s)
  {
    if |xs| > 0 {
      TotalIsCountSum(parts[..|parts| - 1], xs[..|xs| - 1], s);
    }
  }

  lemma {:induction false} CountSumAppend(xs: seq<int>, s: seq<int>, a: int)
    requires StrictlyIncreasing(xs)
    ensures CountSum(xs, s + [a]) == CountSum(xs, s) + (if a in xs then 1 else 0)
  {
    if |xs| > 0 {
      var init := xs[..|xs| - 1];
      CountSumAppend(init, s, a);
      assert multiset(s + [a]) == multiset(s) + multiset{a};
      if a in init {
        var k :| 0 <= k < |init| && init[k] == a;
        assert xs[k] < xs[|xs| - 1];
      }
      assert a in xs <==> a in init || a == xs[|xs| - 1];
    }
  }

  /** Adding up the counts of every distinct element gives the length of the list. */
  lemma {:induction false} CountsCoverLoad(xs: seq<int>, s: seq<int>)
    requires StrictlyIncreasing(xs)
    requires forall d :: d in s ==> d in xs
    ensures CountSum(xs, s) == |s|
  {
    if |s| == 0 {
      CountSumEmpty(xs);
    } else {
      var init := s[..|s| - 1];
      assert s == init + [s[|s| - 1]];
      CountsCoverLoad(xs, init);
      CountSumAppend(xs, init, s[|s| - 1]);
    }
  }

  lemma {:induction false} CountSumEmpty(xs: seq<int>)
    ensures CountSum(xs, []) == 0
  {
    if |xs| > 0 {
      CountSumEmpty(xs[..|xs| - 1]);
    }
  }

  function Join(parts: seq<string>, sep: string): string {
    if |parts| == 0 then "" else if |parts| == 1 then parts[0] else parts[0] + sep + Join(parts[1..], sep)
  }

  function RenderPart(p: SummaryPart): string {
    IntToString(p.count) + [p.arrow] + DisplayFloor(p.floor)
  }

  function RenderParts(parts: seq<SummaryPart>): (r: seq<string>)
    ensures |r| == |parts| && forall i :: 0 <= i < |parts| ==> r[i] == RenderPart(parts[i])
  {
    seq(|parts|, i requires 0 <= i < |parts| => RenderPart(parts[i]))
  }

  /** `_passenger_dest_summary`: "Empty" when nobody rides, else the parts joined by ", ". */
  function PassengerDestSummary(e: Elevator): (r: string)
    ensures r == "Empty" <==> Load(e) == 0
    ensures Load(e) > 0 ==> r == Join(RenderParts(SummaryParts(e)), ", ")
  {
    if Load(e) == 0 then "Empty"
    else
      var parts := SummaryParts(e);
      assert |parts| >= 1 by { assert e.dests[0] in e.dests; }
      var rendered := RenderParts(parts);
      RenderPartStartsWithDigit(parts[0]);
      JoinStartsWith(rendered, ", ");
      assert "Empty"[0] == 'E';
      Join(rendered, ", ")
  }

  /** A rendered part starts with its count, a digit. */
  lemma RenderPartStartsWithDigit(p: SummaryPart)
    ensures |RenderPart(p)| >= 1 && IsDigit(RenderPart(p)[0])
  {
    assert RenderPart(p)[0] == NatToString(p.count)[0];
  }

  lemma JoinStartsWith(parts: seq<string>, sep: string)
    requires |parts| >= 1 && |parts[0]| >= 1
    ensures |Join(parts, sep)| >= 1 && Join(parts, sep)[0] == parts[0][0]
  {
  }

  // ---------------------------------------------------------------------------
  // One simulation step

  /** The floors the passengers on board are riding to. */
  function DestFloors(e: Elevator): set<int> {
    set d | d in e.dests
  }

  /** Every floor the car still has a reason to visit. */
  function Targets(e: Elevator): set<int> {
    DestFloors(e) + e.stops.Keys
  }

  predicate AnyAbove(t: set<int>, f: int) {
    exists x :: x in t && x > f
  }

  predicate AnyBelow(t: set<int>, f: int) {
    exists x :: x in t && x < f
  }

  /** Whether some target lies further along the current direction of travel. */
  predicate FurtherInDirection(e: Elevator) {
    if e.direction == 1 then AnyAbove(Targets(e), e.floor)
    else if e.direction == -1 then AnyBelow(Targets(e), e.floor)
    else false
  }

  /** The stop decision of `step` (reasons 1 to 4): a passenger's destination always
      stops the car; a pickup (idle, same direction, or turnaround at the end of the
      path) stops it only when there is room. */
  predicate ShouldStop(e: Elevator)
    ensures e.floor in e.dests ==> ShouldStop(e)
    ensures ShouldStop(e) && e.floor !in e.dests ==> Load(e) < e.capacity && StopsAt(e, e.floor) != {}
    ensures ShouldStop(e) && e.floor !in e.dests && e.direction != 0 && e.direction !in StopsAt(e, e.floor) ==>
      -e.direction in StopsAt(e, e.floor) && !FurtherInDirection(e)
    ensures Load(e) < e.capacity && (e.direction == 0 || e.direction in StopsAt(e, e.floor)) && StopsAt(e, e.floor) != {} ==>
      ShouldStop(e)
    ensures Load(e) < e.capacity && e.direction != 0 && -e.direction in StopsAt(e, e.floor) && !FurtherInDirection(e) ==>
      ShouldStop(e)
  {
    var here := StopsAt(e, e.floor);
    if e.floor in e.dests then true
    else if e.direction == 0 && here != {} then Load(e) < e.capacity
    else if e.direction in here then Load(e) < e.capacity
    else if e.direction != 0 && -e.direction in here then !FurtherInDirection(e) && Load(e) < e.capacity
    else false
  }

  /** The movement part of `step`, evaluated when the car did not stop. */
  function Move(e: Elevator): (r: Elevator)
    ensures r.dests == e.dests && r.stops == e.stops && SameConfig(r, e)
    ensures r.stoppedThisStep == e.stoppedThisStep
    ensures r.movedThisStep <==> r.floor != e.floor || e.movedThisStep
    ensures r.floor != e.floor ==>
      && r.direction == e.direction
      && r.floor == e.floor + e.direction
      && (e.direction == 1 ==> AnyAbove(Targets(e), e.floor) && e.floor < e.highest)
      && (e.direction == -1 ==> AnyBelow(Targets(e), e.floor) && e.floor > e.lowest)
    ensures r.floor == e.floor ==> r.movedThisStep == e.movedThisStep
    ensures r.direction != e.direction ==>
      (r.direction == 1 ==> AnyAbove(Targets(e), e.floor)) && (r.direction == -1 ==> AnyBelow(Targets(e), e.floor))
    ensures e.direction in {-1, 0, 1} ==> r.direction in {-1, 0, 1}
    ensures e.direction == 0 && Targets(e) == {} ==> r == e
    // progress: the car advances one floor towards a target ahead, else it turns or idles
    ensures e.direction == 1 && AnyAbove(Targets(e), e.floor) && e.floor < e.highest ==>
      r.floor == e.floor + 1 && r.direction == 1
    ensures e.direction == 1 && !(AnyAbove(Targets(e), e.floor) && e.floor < e.highest) ==>
      && r.floor == e.floor
      && (AnyBelow(Targets(e), e.floor) ==> r.direction == -1)
      && (!AnyBelow(Targets(e), e.floor) && (Targets(e) == {} || Load(e) > 0) ==> r.direction == 0)
      && (!AnyBelow(Targets(e), e.floor) && Targets(e) != {} && Load(e) == 0 ==> r == e)
    ensures e.direction == -1 && AnyBelow(Targets(e), e.floor) && e.floor > e.lowest ==>
      r.floor == e.floor - 1 && r.direction == -1
    ensures e.direction == -1 && !(AnyBelow(Targets(e), e.floor) && e.floor > e.lowest) ==>
      && r.floor == e.floor
      && (AnyAbove(Targets(e), e.floor) ==> r.direction == 1)
      && (!AnyAbove(Targets(e), e.floor) && (Targets(e) == {} || Load(e) > 0) ==> r.direction == 0)
      && (!AnyAbove(Targets(e), e.floor) && Targets(e) != {} && Load(e) == 0 ==> r == e)
    ensures e.direction == 0 ==>
      && r.floor == e.floor
      && r.direction == (if AnyAbove(Targets(e), e.floor) then 1 else if AnyBelow(Targets(e), e.floor) then -1 else 0)
  {
    var t := Targets(e);
    if e.direction == 1 then
      if AnyAbove(t, e.floor) && e.floor < e.highest then e.(floor := e.floor + 1, movedThisStep := true)
      else if AnyBelow(t, e.floor) then e.(direction := -1)
      else if t == {} && Load(e) == 0 then e.(direction := 0)
      else if Load(e) > 0 then e.(direction := 0)
      else if t == {} then e.(direction := 0)
      else e
    else if e.direction == -1 then
      if AnyBelow(t, e.floor) && e.floor > e.lowest then e.(floor := e.floor - 1, movedThisStep := true)
      else if AnyAbove(t, e.floor) then e.(direction := 1)
      else if t == {} && Load(e) == 0 then e.(direction := 0)
      else if Load(e) > 0 then e.(direction := 0)
      else if t == {} then e.(direction := 0)
      else e
    else if e.direction == 0 then
      if e.stops != map[] || e.dests != [] then
        if AnyAbove(t, e.floor) then e.(direction := 1)
        else if AnyBelow(t, e.floor) then e.(direction := -1)
        else e
      else e
    else e
  }

  /** `step`: stop (alight, clear the floor's request) or evaluate movement. The
      boolean is `action_taken`. */
  function Step(e: Elevator): (r: (Elevator, bool))
    ensures r.1 <==> r.0.stoppedThisStep || r.0.movedThisStep
    ensures r.0.stoppedThisStep <==> ShouldStop(e)
    ensures !(r.0.stoppedThisStep && r.0.movedThisStep)
    ensures SameConfig(r.0, e)
    ensures e.direction == 0 && Targets(e) == {} ==> !r.1 && r.0.floor == e.floor && r.0.direction == 0
    ensures Valid(e) ==> Valid(r.0)
  {
    var e0 := e.(stoppedThisStep := false, movedThisStep := false);
    assert Valid(e) ==> Valid(e0);
    if ShouldStop(e) then
      StopHereKeepsValid(e0);
      (StopHere(e0), true)
    else
      assert Targets(e0) == Targets(e);
      MoveKeepsValid(e0);
      var e1 := Move(e0);
      (e1, e1.movedThisStep)
  }

  /** A step that stops stays put, clears this floor's request and lets exactly
      this floor's passengers off. */
  lemma StepStops(e: Elevator)
    ensures var r := Step(e).0;
      r.stoppedThisStep ==>
      && r.floor == e.floor && r.direction == e.direction
      && e.floor !in r.stops
      && (forall g :: g in e.stops && g != e.floor ==> g in r.stops && r.stops[g] == e.stops[g])
      && r.stops.Keys <= e.stops.Keys
      && e.floor !in r.dests
      && IsSubsequence(r.dests, e.dests)
      && (forall y :: y != e.floor ==> multiset(r.dests)[y] == multiset(e.dests)[y])
  {
  }

  /** A step that does not stop keeps the load and the requests and moves at most
      one floor, toward a target; a new direction points at a target. */
  lemma StepMoves(e: Elevator)
    ensures var r := Step(e).0;
      && (!r.stoppedThisStep ==>
          && r.dests == e.dests && r.stops == e.stops
          && -1 <= r.floor - e.floor <= 1
          && (r.movedThisStep <==> r.floor != e.floor))
      && (r.movedThisStep ==>
          && r.direction == e.direction && r.floor == e.floor + e.direction
          && (e.direction == 1 ==> AnyAbove(Targets(e), e.floor))
          && (e.direction == -1 ==> AnyBelow(Targets(e), e.floor)))
      && (r.direction != e.direction ==>
          (r.direction == 1 ==> AnyAbove(Targets(e), e.floor)) && (r.direction == -1 ==> AnyBelow(Targets(e), e.floor)))
  {
    var e0 := e.(stoppedThisStep := false, movedThisStep := false);
    if !ShouldStop(e) {
      assert Targets(e0) == Targets(e);
    }
  }

  /** Moving keeps the car inside the building and leaves its load and requests alone. */
  lemma MoveKeepsValid(e: Elevator)
    ensures Valid(e) ==> Valid(Move(e))
  {
  }

  /** The stop branch of `step`: passengers for this floor alight and the pickup
      request here is cleared; the car stays where it is. */
  function StopHere(e: Elevator): (r: Elevator)
    ensures r.stoppedThisStep && !r.movedThisStep
    ensures SameConfig(r, e) && r.floor == e.floor && r.direction == e.direction
    ensures e.floor !in r.stops
    ensures forall g :: g in e.stops && g != e.floor ==> g in r.stops && r.stops[g] == e.stops[g]
    ensures r.stops.Keys <= e.stops.Keys
    ensures e.floor !in r.dests
    ensures IsSubsequence(r.dests, e.dests)
    ensures forall y :: y != e.floor ==> multiset(r.dests)[y] == multiset(e.dests)[y]
    ensures Load(r) <= Load(e)
  {
    var (e1, _) := Alight(e);
    e1.(stops := e1.stops - {e.floor}, stoppedThisStep := true, movedThisStep := false)
  }

  lemma StopHereKeepsValid(e: Elevator)
    ensures Valid(e) ==> Valid(StopHere(e))
  {
    var r := StopHere(e);
    forall d | Valid(e) && d in r.dests
      ensures IsValidFloor(r, d) && d in r.stops
    {
      assert multiset(r.dests)[d] == multiset(e.dests)[d];
      assert d in e.dests;
    }
  }
}
