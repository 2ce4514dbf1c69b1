/** The backend of elevator/main.py: one shared elevator, the waiting queues, the
    pending partial-fit decision, and the handlers for the WebSocket messages and for
    one tick of the simulation loop. Locks, tasks, sleeping and broadcasting are left
    out; each handler is a function from the shared state to the next one. */
module Server {
  import opened Wrappers
  import opened Collections
  import opened Waiting
  import opened ElevatorModel

  const DefaultLowest := -1
  const DefaultHighest := 5
  const DefaultCapacity := 8
  const DefaultStart := 0
  const DefaultCycle: real := 3.0

  // ---------------------------------------------------------------------------
  // Decoded JSON messages

  /** A decoded JSON value as Python sees it; arrays and objects are not inspected. */
  datatype Json = JInt(i: int) | JFloat(x: real) | JBool(b: bool) | JStr(s: string) | JNull | JOther

  type Message = map<string, Json>

  /** `message.get(key, default)`. */
  function Get(m: Message, key: string, default: Json): Json {
    if key in m then m[key] else default
  }

  /** The value of `v` when `isinstance(v, int)` holds; Python's bools are ints. */
  function PyInt(v: Json): (r: Option<int>)
    ensures v.JInt? ==> r == Some(v.i)
    ensures v.JBool? ==> r == Some(if v.b then 1 else 0)
    ensures !v.JInt? && !v.JBool? ==> r.None?
  {
    match v
    case JInt(i) => Some(i)
    case JBool(b) => Some(if b then 1 else 0)
    case _ => None
  }

  /** The value of `v` when `isinstance(v, (int, float))` holds. */
  function PyNumber(v: Json): (r: Option<real>)
    ensures PyInt(v).Some? ==> r == Some(PyInt(v).value as real)
    ensures v.JFloat? ==> r == Some(v.x)
    ensures v.JStr? || v.JNull? || v.JOther? ==> r.None?
  {
    match v
    case JFloat(x) => Some(x)
    case JInt(i) => Some(i as real)
    case JBool(b) => Some(if b then 1.0 else 0.0)
    case _ => None
  }

  /** What the server sends back on the connection the message came from. */
  datatype Reply = Quiet | SendError(text: string) | SendErrorAndClose(text: string) | Close

  // ---------------------------------------------------------------------------
  // Shared state

  /** `pending_decision_details`: a group at (floor, dir) only part of which fits. */
  datatype Pending = Pending(floor: int, dir: Dir, dest: int, numWaiting: int, canBoard: int)

  /** The module globals: `elevator`, `waiting_passengers`, `pending_decision_details`,
      `user_decision_num_to_board` and `current_cycle_time`. */
  datatype ServerState = ServerState(
    elevator: Option<Elevator>,
    waiting: Queues,
    pending: Option<Pending>,
    decision: int,
    cycleTime: real)

  function Initial(): (r: ServerState)
    ensures r.elevator.None? && r.waiting == map[] && r.pending.None? && r.cycleTime == DefaultCycle
  {
    ServerState(None, map[], None, 0, DefaultCycle)
  }

  /** A pending decision is recorded only while an elevator exists. */
  predicate PendingNeedsElevator(s: ServerState) {
    s.pending.Some? ==> s.elevator.Some?
  }

  /** A pending decision names a group that is still queued and only partly fits. */
  ghost predicate PendingQueued(s: ServerState) {
    s.pending.Some? ==>
      var p := s.pending.value;
      && s.elevator.Some?
      && Group(p.dest, p.numWaiting) in ListAt(s.waiting, p.floor, p.dir)
      && 1 <= p.canBoard < p.numWaiting
  }

  /** The state invariant while a boarding phase is in progress. */
  ghost predicate Consistent(s: ServerState) {
    && (s.elevator.Some? ==> Valid(s.elevator.value) && WellFormed(s.waiting, s.elevator.value.lowest, s.elevator.value.highest))
    && (s.elevator.None? ==> s.waiting == map[])
    && PendingQueued(s)
  }

  /** The state invariant between handlers: consistent, with no decision outstanding. */
  ghost predicate ServerValid(s: ServerState) {
    Consistent(s) && s.pending.None? && s.decision == 0
  }

  // ---------------------------------------------------------------------------
  // Boarding one direction (`_attempt_board_direction`)

  /** The loop variables of the scan over one waiting list. */
  datatype Scan = Scan(e: Elevator, kept: seq<Group>, pending: Option<Pending>, decision: int, boarded: bool)

  /** One group: waits when the car is full, boards whole when it fits, and otherwise
      records a partial-fit decision for all the free room and waits. */
  function ScanGroup(f: int, d: Dir, g: Group, acc: Scan): Scan {
    var room := acc.e.capacity - Load(acc.e);
    if room == 0 then acc.(kept := acc.kept + [g])
    else if room >= g.count then
      var n: nat := if g.count > 0 then g.count else 0;
      var (e1, k) := BoardMany(acc.e, g.dest, n);
      if k == n then acc.(e := e1, boarded := true)
      else acc.(e := e1, kept := acc.kept + [g])
    else
      acc.(pending := Some(Pending(f, d, g.dest, g.count, room)), decision := room, kept := acc.kept + [g])
  }

  function ScanGroups(f: int, d: Dir, l: seq<Group>, acc: Scan): Scan
    decreases |l|
  {
    if |l| == 0 then acc else ScanGroups(f, d, l[1..], ScanGroup(f, d, l[0], acc))
  }

  /** A scan only ever records a decision for its own floor and direction. */
  lemma {:induction false} ScanPendingFor(f: int, d: Dir, l: seq<Group>, acc: Scan)
    ensures var r := ScanGroups(f, d, l, acc);
      r.pending == acc.pending || (r.pending.Some? && r.pending.value.floor == f && r.pending.value.dir == d)
    decreases |l|
  {
    if |l| > 0 {
      ScanPendingFor(f, d, l[1..], ScanGroup(f, d, l[0], acc));
    }
  }

  /** The scan's own partial-fit record: for this floor and direction, a kept group,
      and the decision preset to all the room there is. */
  ghost predicate FreshPending(sc: Scan, f: int, d: Dir) {
    && sc.pending.Some?
    && sc.pending.value.floor == f && sc.pending.value.dir == d
    && Group(sc.pending.value.dest, sc.pending.value.numWaiting) in sc.kept
    && 1 <= sc.pending.value.canBoard < sc.pending.value.numWaiting
    && sc.decision == sc.pending.value.canBoard
  }

  /** What one group does to the scan when the car is at `f` and the group is well formed. */
  lemma ScanGroupFacts(f: int, d: Dir, g: Group, acc: Scan)
    requires Valid(acc.e) && acc.e.floor == f
    requires GroupOk(g, f, d, acc.e.lowest, acc.e.highest)
    ensures var r := ScanGroup(f, d, g, acc);
      && Valid(r.e) && SameConfig(r.e, acc.e) && r.e.floor == f && r.e.direction == acc.e.direction
      && Sum(r.kept) + Load(r.e) == Sum(acc.kept) + g.count + Load(acc.e)
      && (r.kept == acc.kept || r.kept == acc.kept + [g])
      && (r.boarded <==> acc.boarded || Load(r.e) > Load(acc.e))
      && Load(r.e) >= Load(acc.e)
      && ((r.pending == acc.pending && r.decision == acc.decision) || FreshPending(r, f, d))
      && (FreshPending(acc, f, d) ==> FreshPending(r, f, d))
    ensures var r := ScanGroup(f, d, g, acc);
      var room := acc.e.capacity - Load(acc.e);
      && (room == 0 ==> r == acc.(kept := acc.kept + [g]))
      && (0 < room && g.count <= room ==>
            r == acc.(e := r.e, boarded := true) && r.e.dests == acc.e.dests + Repeat(g.dest, g.count))
      && (0 < room < g.count ==>
            r == acc.(pending := Some(Pending(f, d, g.dest, g.count, room)), decision := room, kept := acc.kept + [g]))
  {
    ScanGroupCar(f, d, g, acc);
    ScanGroupKept(f, d, g, acc);
    ScanGroupDecision(f, d, g, acc);
    ScanGroupRules(f, d, g, acc);
  }

  /** The three rules for one group: with no room it waits; when it fits, all of it
      boards; otherwise it waits and the room left is recorded as the decision. */
  lemma ScanGroupRules(f: int, d: Dir, g: Group, acc: Scan)
    requires Valid(acc.e) && acc.e.floor == f
    requires GroupOk(g, f, d, acc.e.lowest, acc.e.highest)
    ensures var r := ScanGroup(f, d, g, acc);
      var room := acc.e.capacity - Load(acc.e);
      && (room == 0 ==> r == acc.(kept := acc.kept + [g]))
      && (0 < room && g.count <= room ==>
            r == acc.(e := r.e, boarded := true) && r.e.dests == acc.e.dests + Repeat(g.dest, g.count))
      && (0 < room < g.count ==>
            r == acc.(pending := Some(Pending(f, d, g.dest, g.count, room)), decision := room, kept := acc.kept + [g]))
  {
    var room := acc.e.capacity - Load(acc.e);
    if 0 < room && g.count <= room {
      var (e1, k) := BoardMany(acc.e, g.dest, g.count);
      assert k == g.count;
    }
  }

  /** A full car boards nobody: every group of the list is kept, in order. */
  lemma {:induction false} ScanGroupsFull(f: int, d: Dir, l: seq<Group>, acc: Scan)
    requires Load(acc.e) == acc.e.capacity
    ensures ScanGroups(f, d, l, acc) == acc.(kept := acc.kept + l)
    decreases |l|
  {
    if |l| > 0 {
      var next := ScanGroup(f, d, l[0], acc);
      assert next == acc.(kept := acc.kept + [l[0]]);
      ScanGroupsFull(f, d, l[1..], next);
      assert acc.kept + [l[0]] + l[1..] == acc.kept + l;
    }
  }

  /** When the whole list fits, every group boards whole in queue order and nothing
      is kept or recorded. */
  lemma {:induction false} ScanGroupsAllFit(f: int, d: Dir, l: seq<Group>, acc: Scan)
    requires Valid(acc.e) && acc.e.floor == f
    requires ListOk(l, f, d, acc.e.lowest, acc.e.highest)
    requires Sum(l) <= acc.e.capacity - Load(acc.e)
    ensures var r := ScanGroups(f, d, l, acc);
      && r.kept == acc.kept && r.pending == acc.pending && r.decision == acc.decision
      && r.e.dests == acc.e.dests + Flatten(l)
      && (r.boarded <==> acc.boarded || l != [])
    decreases |l|
  {
    if |l| > 0 {
      var g, rest := l[0], l[1..];
      ListOkTail(l, f, d, acc.e.lowest, acc.e.highest);
      SumCons(l);
      SumAtLeastLength(rest, f, d, acc.e.lowest, acc.e.highest);
      var next := ScanGroup(f, d, g, acc);
      ScanGroupFits(f, d, g, acc);
      assert Load(next.e) == Load(acc.e) + g.count;
      ScanGroupsAllFit(f, d, rest, next);
      var r := ScanGroups(f, d, rest, next);
      assert ScanGroups(f, d, l, acc) == r;
      assert Flatten(l) == Repeat(g.dest, g.count) + Flatten(rest);
      ConcatAssoc(acc.e.dests, Repeat(g.dest, g.count), Flatten(rest));
    }
  }

  /** A group that fits boards whole and touches nothing else of the scan. */
  lemma ScanGroupFits(f: int, d: Dir, g: Group, acc: Scan)
    requires Valid(acc.e) && acc.e.floor == f
    requires GroupOk(g, f, d, acc.e.lowest, acc.e.highest)
    requires g.count <= acc.e.capacity - Load(acc.e)
    ensures var r := ScanGroup(f, d, g, acc);
      && r.kept == acc.kept && r.pending == acc.pending && r.decision == acc.decision && r.boarded
      && r.e.dests == acc.e.dests + Repeat(g.dest, g.count)
      && Valid(r.e) && SameConfig(r.e, acc.e) && r.e.floor == f
  {
    ScanGroupRules(f, d, g, acc);
    ScanGroupCar(f, d, g, acc);
  }

  lemma {:induction false} SumAtLeastLength(l: seq<Group>, f: int, d: Dir, lowest: int, highest: int)
    requires ListOk(l, f, d, lowest, highest)
    ensures Sum(l) >= |l|
    decreases |l|
  {
    if |l| > 0 {
      ListOkTail(l, f, d, lowest, highest);
      SumCons(l);
      SumAtLeastLength(l[1..], f, d, lowest, highest);
    }
  }

  /** One group leaves a valid car at the same floor, carrying whoever boarded. */
  lemma ScanGroupCar(f: int, d: Dir, g: Group, acc: Scan)
    requires Valid(acc.e) && acc.e.floor == f
    requires GroupOk(g, f, d, acc.e.lowest, acc.e.highest)
    ensures var r := ScanGroup(f, d, g, acc);
      && Valid(r.e) && SameConfig(r.e, acc.e) && r.e.floor == f && r.e.direction == acc.e.direction
      && (r.boarded <==> acc.boarded || Load(r.e) > Load(acc.e))
      && Load(r.e) >= Load(acc.e)
      && (Load(r.e) == Load(acc.e) || (Load(r.e) == Load(acc.e) + g.count && r.kept == acc.kept))
  {
    var room := acc.e.capacity - Load(acc.e);
    if room != 0 && room >= g.count {
      var (e1, k) := BoardMany(acc.e, g.dest, g.count);
      assert k == g.count;
      assert Load(e1) == Load(acc.e) + g.count;
    }
  }

  /** One group is either boarded whole or kept, and nobody is lost in between. */
  lemma ScanGroupKept(f: int, d: Dir, g: Group, acc: Scan)
    requires Valid(acc.e) && acc.e.floor == f
    requires GroupOk(g, f, d, acc.e.lowest, acc.e.highest)
    ensures var r := ScanGroup(f, d, g, acc);
      && Sum(r.kept) + Load(r.e) == Sum(acc.kept) + g.count + Load(acc.e)
      && (r.kept == acc.kept || r.kept == acc.kept + [g])
  {
    ScanGroupCar(f, d, g, acc);
    SumAppend(acc.kept, [g]);
    assert Sum([g]) == g.count by { assert [g][..0] == []; }
    var room := acc.e.capacity - Load(acc.e);
    if room == 0 || room < g.count {
      assert ScanGroup(f, d, g, acc).e == acc.e;
    }
  }

  /** One group touches the decision slot only to record its own partial fit. */
  lemma ScanGroupDecision(f: int, d: Dir, g: Group, acc: Scan)
    requires Valid(acc.e) && acc.e.floor == f
    requires GroupOk(g, f, d, acc.e.lowest, acc.e.highest)
    ensures var r := ScanGroup(f, d, g, acc);
      && ((r.pending == acc.pending && r.decision == acc.decision) || FreshPending(r, f, d))
      && (FreshPending(acc, f, d) ==> FreshPending(r, f, d))
  {
    var r := ScanGroup(f, d, g, acc);
    var room := acc.e.capacity - Load(acc.e);
    if room == 0 {
      assert r == acc.(kept := acc.kept + [g]);
    } else if room >= g.count {
      assert r.pending == acc.pending && r.decision == acc.decision && r.kept <= acc.kept + [g];
    } else {
      assert r == acc.(pending := Some(Pending(f, d, g.dest, g.count, room)), decision := room, kept := acc.kept + [g]);
      assert FreshPending(r, f, d);
    }
  }

  /** The scan conserves people: those kept plus those on board equal those before. */
  lemma {:induction false} ScanGroupsCount(f: int, d: Dir, l: seq<Group>, acc: Scan)
    requires Valid(acc.e) && acc.e.floor == f
    requires ListOk(l, f, d, acc.e.lowest, acc.e.highest)
    ensures var r := ScanGroups(f, d, l, acc);
      && Valid(r.e) && SameConfig(r.e, acc.e) && r.e.floor == f && r.e.direction == acc.e.direction
      && Sum(r.kept) + Load(r.e) == Sum(acc.kept) + Sum(l) + Load(acc.e)
      && (r.boarded <==> acc.boarded || Load(r.e) > Load(acc.e))
      && Load(r.e) >= Load(acc.e)
    decreases |l|
  {
    if |l| > 0 {
      ListOkTail(l, f, d, acc.e.lowest, acc.e.highest);
      var next := ScanGroup(f, d, l[0], acc);
      ScanGroupCar(f, d, l[0], acc);
      ScanGroupKept(f, d, l[0], acc);
      ScanGroupsCount(f, d, l[1..], next);
      SumCons(l);
    }
  }

  /** Every group the scan keeps is one of the well-formed groups it was given. */
  lemma {:induction false} ScanGroupsKept(f: int, d: Dir, l: seq<Group>, acc: Scan)
    requires Valid(acc.e) && acc.e.floor == f
    requires ListOk(l, f, d, acc.e.lowest, acc.e.highest)
    requires ListOk(acc.kept, f, d, acc.e.lowest, acc.e.highest)
    ensures ListOk(ScanGroups(f, d, l, acc).kept, f, d, acc.e.lowest, acc.e.highest)
    decreases |l|
  {
    if |l| > 0 {
      ListOkTail(l, f, d, acc.e.lowest, acc.e.highest);
      var next := ScanGroup(f, d, l[0], acc);
      ScanGroupCar(f, d, l[0], acc);
      ScanGroupKept(f, d, l[0], acc);
      if next.kept != acc.kept {
        ListOkAppend(acc.kept, l[0], f, d, acc.e.lowest, acc.e.highest);
      }
      ScanGroupsKept(f, d, l[1..], next);
    }
  }

  /** A scan either leaves the decision slot alone or ends with its own fresh record. */
  lemma {:induction false} ScanGroupsPending(f: int, d: Dir, l: seq<Group>, acc: Scan)
    requires Valid(acc.e) && acc.e.floor == f
    requires ListOk(l, f, d, acc.e.lowest, acc.e.highest)
    ensures var r := ScanGroups(f, d, l, acc);
      && ((r.pending == acc.pending && r.decision == acc.decision) || FreshPending(r, f, d))
      && (FreshPending(acc, f, d) ==> FreshPending(r, f, d))
    decreases |l|
  {
    if |l| > 0 {
      ListOkTail(l, f, d, acc.e.lowest, acc.e.highest);
      var next := ScanGroup(f, d, l[0], acc);
      ScanGroupCar(f, d, l[0], acc);
      ScanGroupDecision(f, d, l[0], acc);
      ScanGroupsPending(f, d, l[1..], next);
    }
  }

  /** The scan conserves people, keeps only well-formed groups, and records at most
      its own partial fit. */
  lemma ScanGroupsFacts(f: int, d: Dir, l: seq<Group>, acc: Scan)
    requires Valid(acc.e) && acc.e.floor == f
    requires ListOk(l, f, d, acc.e.lowest, acc.e.highest)
    requires ListOk(acc.kept, f, d, acc.e.lowest, acc.e.highest)
    ensures var r := ScanGroups(f, d, l, acc);
      && Valid(r.e) && SameConfig(r.e, acc.e) && r.e.floor == f && r.e.direction == acc.e.direction
      && Sum(r.kept) + Load(r.e) == Sum(acc.kept) + Sum(l) + Load(acc.e)
      && ListOk(r.kept, f, d, acc.e.lowest, acc.e.highest)
      && (r.boarded <==> acc.boarded || Load(r.e) > Load(acc.e))
      && Load(r.e) >= Load(acc.e)
      && ((r.pending == acc.pending && r.decision == acc.decision) || FreshPending(r, f, d))
      && (FreshPending(acc, f, d) ==> FreshPending(r, f, d))
    ensures var r := ScanGroups(f, d, l, acc);
      && (Load(acc.e) == acc.e.capacity ==> r == acc.(kept := acc.kept + l))
      && (Sum(l) <= acc.e.capacity - Load(acc.e) ==>
            && r.kept == acc.kept && r.pending == acc.pending && r.decision == acc.decision
            && r.e.dests == acc.e.dests + Flatten(l)
            && (r.boarded <==> acc.boarded || l != []))
  {
    ScanGroupsCount(f, d, l, acc);
    ScanGroupsKept(f, d, l, acc);
    ScanGroupsPending(f, d, l, acc);
    if Load(acc.e) == acc.e.capacity { ScanGroupsFull(f, d, l, acc); }
    if Sum(l) <= acc.e.capacity - Load(acc.e) { ScanGroupsAllFit(f, d, l, acc); }
  }

  /** `_attempt_board_direction` with the queue rewritten after every scan: the groups
      that boarded whole leave the queue, all others stay in order. */
  function AttemptBoardDirection(s: ServerState, f: int, d: Dir): (r: (ServerState, bool))
    ensures s.elevator.None? || ListAt(s.waiting, f, d) == [] ==> r == (s, false)
    ensures r.0.elevator.Some? <==> s.elevator.Some?
    ensures r.0.cycleTime == s.cycleTime
    ensures forall g, k :: (g != f || k != d) ==> ListAt(r.0.waiting, g, k) == ListAt(s.waiting, g, k)
    ensures PendingNeedsElevator(s) ==> PendingNeedsElevator(r.0)
    ensures r.0.pending == s.pending || (r.0.pending.Some? && r.0.pending.value.floor == f && r.0.pending.value.dir == d)
  {
    if s.elevator.None? || ListAt(s.waiting, f, d) == [] then (s, false)
    else
      var acc := Scan(s.elevator.value, [], s.pending, s.decision, false);
      ScanPendingFor(f, d, ListAt(s.waiting, f, d), acc);
      var sc := ScanGroups(f, d, ListAt(s.waiting, f, d), acc);
      (s.(elevator := Some(sc.e), waiting := Store(s.waiting, f, d, sc.kept), pending := sc.pending, decision := sc.decision),
       sc.boarded)
  }

  /** Boarding one direction at the car's floor conserves the people at that floor
      (queued there plus on board), keeps the invariant, reports whether anyone
      boarded, and leaves any partial-fit decision pointing at a queued group. */
  lemma AttemptBoardDirectionFacts(s: ServerState, f: int, d: Dir)
    requires Consistent(s) && s.pending.None?
    requires s.elevator.Some? && s.elevator.value.floor == f
    ensures var (r, boarded) := AttemptBoardDirection(s, f, d);
      var e := s.elevator.value;
      var e1 := r.elevator.value;
      && Consistent(r)
      && SameConfig(e1, e) && e1.floor == f && e1.direction == e.direction
      && TotalAt(r.waiting, f, d) + Load(e1) == TotalAt(s.waiting, f, d) + Load(e)
      && (boarded <==> Load(e1) > Load(e)) && Load(e1) >= Load(e)
      && (r.pending.Some? ==> r.pending.value.floor == f && r.pending.value.dir == d)
      && (r.pending.None? ==> r.decision == s.decision)
    ensures var (r, boarded) := AttemptBoardDirection(s, f, d);
      var e := s.elevator.value;
      var l := ListAt(s.waiting, f, d);
      && (Load(e) == e.capacity ==> r == s && !boarded)
      && (TotalAt(s.waiting, f, d) <= e.capacity - Load(e) ==>
            && ListAt(r.waiting, f, d) == [] && r.elevator.value.dests == e.dests + Flatten(l)
            && r.pending.None? && r.decision == s.decision
            && (boarded <==> l != []))
  {
    var e := s.elevator.value;
    var l := ListAt(s.waiting, f, d);
    if l != [] {
      assert HasList(s.waiting, f, d);
      var acc := Scan(e, [], s.pending, s.decision, false);
      ScanGroupsFacts(f, d, l, acc);
      var sc := ScanGroups(f, d, l, acc);
      StorePreservesWellFormed(s.waiting, f, d, sc.kept, e.lowest, e.highest);
      var r := AttemptBoardDirection(s, f, d).0;
      assert ListAt(r.waiting, f, d) == sc.kept;
      if Load(e) == e.capacity {
        StoreSame(s.waiting, f, d);
        assert sc.kept == l && sc.e == e && sc.pending == s.pending && sc.decision == s.decision by {
          assert [] + l == l;
        }
      }
    }
  }

  /** `_attempt_board_direction` as written: the queue is rewritten only when no
      decision is pending, so a scan that records a partial fit keeps the old list. */
  function AttemptBoardDirectionAsWritten(s: ServerState, f: int, d: Dir): (r: (ServerState, bool))
    ensures r.0.pending.None? ==> r == AttemptBoardDirection(s, f, d)
    ensures r.0.pending.Some? && s.elevator.Some? && ListAt(s.waiting, f, d) != [] ==>
      r.0.waiting == s.waiting && r.0.elevator == AttemptBoardDirection(s, f, d).0.elevator
  {
    if s.elevator.None? || ListAt(s.waiting, f, d) == [] then (s, false)
    else
      var sc := ScanGroups(f, d, ListAt(s.waiting, f, d), Scan(s.elevator.value, [], s.pending, s.decision, false));
      var w := if sc.pending.None? then Store(s.waiting, f, d, sc.kept) else s.waiting;
      (s.(elevator := Some(sc.e), waiting := w, pending := sc.pending, decision := sc.decision), sc.boarded)
  }

  /** Capacity 3 at floor 0, queue up: 4 people for 5, then 1 for 6. The first group
      records a partial fit, the second boards, and it is still queued afterwards:
      one person is counted both on board and waiting. */
  lemma AsWrittenCountsBoardedTwice()
    ensures
      var e := Elevator(0, 6, 3, 0, 0, [], map[], false, false);
      var s := ServerState(Some(e), map[0 := map[Up := [Group(5, 4), Group(6, 1)]]], None, 0, DefaultCycle);
      var (r, boarded) := AttemptBoardDirectionAsWritten(s, 0, Up);
      && Consistent(s) && s.pending.None?
      && boarded && r.elevator.value.dests == [6]
      && ListAt(r.waiting, 0, Up) == [Group(5, 4), Group(6, 1)]
      && TotalAt(r.waiting, 0, Up) + Load(r.elevator.value) == TotalAt(s.waiting, 0, Up) + Load(e) + 1
  {
    var e := Elevator(0, 6, 3, 0, 0, [], map[], false, false);
    var l := [Group(5, 4), Group(6, 1)];
    var w := map[0 := map[Up := l]];
    assert ListOk(l, 0, Up, 0, 6);
    assert WellFormed(w, 0, 6) by {
      assert Up in w[0] && w[0][Up] == l;
      forall g, k | HasList(w, g, k) ensures ListOk(w[g][k], g, k, 0, 6) {
        assert g == 0 && k == Up;
      }
    }
    var sc := ScanGroups(0, Up, l, Scan(e, [], None, 0, false));
    CountsBoardedTwiceScan();
    var s := ServerState(Some(e), w, None, 0, DefaultCycle);
    assert ListAt(s.waiting, 0, Up) == l;
    assert AttemptBoardDirectionAsWritten(s, 0, Up) == (s.(elevator := Some(sc.e), pending := sc.pending, decision := sc.decision), true);
    assert Sum(l) == 5 by { assert l[..1] == [Group(5, 4)]; assert l[..1][..0] == []; }
  }

  /** The scan behind the example above: a partial fit for the first group, then the
      second group boards. */
  lemma CountsBoardedTwiceScan()
    ensures var e := Elevator(0, 6, 3, 0, 0, [], map[], false, false);
      var sc := ScanGroups(0, Up, [Group(5, 4), Group(6, 1)], Scan(e, [], None, 0, false));
      sc.boarded && sc.e.dests == [6] && sc.pending.Some?
  {
    var e := Elevator(0, 6, 3, 0, 0, [], map[], false, false);
    var l := [Group(5, 4), Group(6, 1)];
    var acc := Scan(e, [], None, 0, false);
    var a1 := ScanGroup(0, Up, l[0], acc);
    assert a1 == Scan(e, [Group(5, 4)], Some(Pending(0, Up, 5, 4, 3)), 3, false);
    var (e1, ok) := BoardPassenger(e, 6);
    assert ok && e1.dests == [6];
    var (e2, k) := BoardMany(e, 6, 1);
    assert k == 1 && e2.dests == [6];
    var a2 := ScanGroup(0, Up, l[1], a1);
    assert a2.e.dests == [6] && a2.boarded;
    assert l[1..][1..] == [];
    assert ScanGroups(0, Up, l[1..], a1) == a2;
    assert ScanGroups(0, Up, l, acc) == a2;
  }

  // ---------------------------------------------------------------------------
  // The pending decision (`process_boarding_decision`)

  /** `max(0, min(decision, can_board))`. */
  function ClampDecision(decision: int, canBoard: int): (n: nat)
    ensures n <= canBoard || n == 0
    ensures n <= decision || n == 0
    ensures 0 <= decision <= canBoard ==> n == decision
    ensures 0 <= canBoard <= decision ==> n == canBoard
    ensures n == 0 <==> decision <= 0 || canBoard <= 0
  {
    var m := if decision < canBoard then decision else canBoard;
    if m > 0 then m else 0
  }

  /** Boards the clamped number of the pending group (stopping at the first refusal),
      shrinks the first queued group equal to the pending one by the number boarded,
      and clears the decision. */
  function ProcessBoardingDecision(s: ServerState): (r: (ServerState, bool))
    requires PendingNeedsElevator(s)
    ensures s.pending.None? ==> r == (s, false)
    ensures r.0.pending.None? && r.0.cycleTime == s.cycleTime
    ensures s.pending.Some? ==> r.0.decision == 0
    ensures r.0.elevator.Some? <==> s.elevator.Some?
    ensures s.pending.Some? ==>
      var p := s.pending.value;
      var e := s.elevator.value;
      var e1 := r.0.elevator.value;
      && Load(e) <= Load(e1) <= Load(e) + ClampDecision(s.decision, p.canBoard)
      && e1.dests == e.dests + Repeat(p.dest, Load(e1) - Load(e))
      && SameConfig(e1, e) && e1.floor == e.floor && e1.direction == e.direction
      && (r.1 <==> Load(e1) > Load(e))
      && ListAt(r.0.waiting, p.floor, p.dir)
         == ReduceFirst(ListAt(s.waiting, p.floor, p.dir), p.dest, p.numWaiting, Load(e1) - Load(e))
      && (forall g, k :: (g != p.floor || k != p.dir) ==> ListAt(r.0.waiting, g, k) == ListAt(s.waiting, g, k))
  {
    if s.pending.None? then (s, false)
    else
      var p := s.pending.value;
      var e := s.elevator.value;
      var (e1, k) := BoardMany(e, p.dest, ClampDecision(s.decision, p.canBoard));
      var w :=
        if HasList(s.waiting, p.floor, p.dir) then
          Store(s.waiting, p.floor, p.dir, ReduceFirst(s.waiting[p.floor][p.dir], p.dest, p.numWaiting, k))
        else s.waiting;
      (ServerState(Some(e1), w, None, 0, s.cycleTime), k > 0)
  }

  /** How many a settled decision boards: the clamped decision, cut to the room left,
      or nobody when the destination is off the building or the current floor. */
  lemma ProcessBoardingDecisionCount(s: ServerState)
    requires PendingNeedsElevator(s) && s.pending.Some?
    requires Load(s.elevator.value) <= s.elevator.value.capacity
    ensures var p := s.pending.value;
      var e := s.elevator.value;
      var e1 := ProcessBoardingDecision(s).0.elevator.value;
      Load(e1) - Load(e)
      == if IsValidFloor(e, p.dest) && p.dest != e.floor then Min(ClampDecision(s.decision, p.canBoard), e.capacity - Load(e)) else 0
  {
  }

  /** Settling a decision that names a queued group moves exactly the people boarded
      from that queue into the car, and restores the between-handlers invariant. */
  lemma ProcessBoardingDecisionFacts(s: ServerState)
    requires Consistent(s) && s.pending.Some?
    ensures var r := ProcessBoardingDecision(s).0;
      var p := s.pending.value;
      && ServerValid(r)
      && TotalAt(r.waiting, p.floor, p.dir) + Load(r.elevator.value)
         == TotalAt(s.waiting, p.floor, p.dir) + Load(s.elevator.value)
  {
    var p := s.pending.value;
    var e := s.elevator.value;
    var r := ProcessBoardingDecision(s).0;
    var e1 := r.elevator.value;
    var k := Load(e1) - Load(e);
    var l := ListAt(s.waiting, p.floor, p.dir);
    assert HasList(s.waiting, p.floor, p.dir);
    assert ListOk(l, p.floor, p.dir, e.lowest, e.highest);
    assert FirstMatch(l, p.dest, p.numWaiting).Some? by {
      var i := IndexOfGroup(l, Group(p.dest, p.numWaiting));
      assert l[i] == Group(p.dest, p.numWaiting);
    }
    ReduceFirstSum(l, p.dest, p.numWaiting, k);
    ReduceFirstOk(l, p.dest, p.numWaiting, k, p.floor, p.dir, e.lowest, e.highest);
    StorePreservesWellFormed(s.waiting, p.floor, p.dir, ReduceFirst(l, p.dest, p.numWaiting, k), e.lowest, e.highest);
  }

  lemma IndexOfGroup(l: seq<Group>, g: Group) returns (i: nat)
    requires g in l
    ensures i < |l| && l[i] == g
  {
    i := 0;
    while l[i] != g
      invariant i < |l| && g in l[i..]
      decreases |l| - i
    {
      assert l[i..] == [l[i]] + l[i + 1..];
      i := i + 1;
    }
  }

  // ---------------------------------------------------------------------------
  // The boarding phase at a stop (`handle_boarding`)

  /** `try_boarding`: settle an outstanding decision, board one direction, and settle
      the decision that scan may have recorded. The flag says whether anyone boarded
      in any of the three parts. */
  function TryBoarding(s: ServerState, f: int, d: Dir): (r: (ServerState, bool))
    requires PendingNeedsElevator(s)
    ensures r.0.pending.None? && r.0.cycleTime == s.cycleTime
    ensures r.0.elevator.Some? <==> s.elevator.Some?
    ensures s.pending.None? ==>
      forall g, k :: (g != f || k != d) ==> ListAt(r.0.waiting, g, k) == ListAt(s.waiting, g, k)
  {
    var (s1, b1) := ProcessBoardingDecision(s);
    var (s2, b2) := AttemptBoardDirection(s1, f, d);
    var (s3, b3) := ProcessBoardingDecision(s2);
    (s3, b1 || b2 || b3)
  }

  /** Between handlers, one `try_boarding` at the car's floor moves people from that
      floor's queue for `d` into the car and nowhere else. */
  lemma TryBoardingFacts(s: ServerState, f: int, d: Dir)
    requires ServerValid(s) && s.elevator.Some? && s.elevator.value.floor == f
    ensures var (r, boarded) := TryBoarding(s, f, d);
      var e := s.elevator.value;
      var e1 := r.elevator.value;
      && ServerValid(r)
      && SameConfig(e1, e) && e1.floor == f && e1.direction == e.direction
      && TotalAt(r.waiting, f, d) + Load(e1) == TotalAt(s.waiting, f, d) + Load(e)
      && (boarded <==> Load(e1) > Load(e)) && Load(e1) >= Load(e)
  {
    var (s1, b1) := ProcessBoardingDecision(s);
    assert s1 == s && !b1;
    var (s2, b2) := AttemptBoardDirection(s, f, d);
    AttemptBoardDirectionFacts(s, f, d);
    var (s3, b3) := ProcessBoardingDecision(s2);
    if s2.pending.Some? {
      ProcessBoardingDecisionFacts(s2);
      assert ServerValid(s3);
    } else {
      assert s3 == s2 && !b3;
    }
    assert TryBoarding(s, f, d) == (s3, b1 || b2 || b3);
  }

  /** The attempts in the order the arrival direction dictates: the direction of
      travel first, the other one only while there is room and, when moving, only if
      nothing is left to visit beyond this floor. */
  function BoardingAttempts(s: ServerState, f: int): (r: (ServerState, bool))
    requires PendingNeedsElevator(s) && s.elevator.Some?
    ensures r.0.elevator.Some? && r.0.cycleTime == s.cycleTime
    ensures s.elevator.value.direction in {-1, 0, 1} ==> r.0.pending.None?
    ensures s.pending.None? ==>
      forall g, k :: g != f ==> ListAt(r.0.waiting, g, k) == ListAt(s.waiting, g, k)
  {
    var arrival := s.elevator.value.direction;
    if arrival == 0 then
      var (a, b1) := TryBoarding(s, f, Up);
      var e := a.elevator.value;
      if Load(e) < e.capacity then
        var (c, b2) := TryBoarding(a, f, Down);
        (c, b1 || b2)
      else (a, b1)
    else if arrival == 1 then
      var (a, b1) := TryBoarding(s, f, Up);
      var e := a.elevator.value;
      if !AnyAbove(Targets(e), f) && Load(e) < e.capacity then
        var (c, b2) := TryBoarding(a, f, Down);
        (c, b1 || b2)
      else (a, b1)
    else if arrival == -1 then
      var (a, b1) := TryBoarding(s, f, Down);
      var e := a.elevator.value;
      if !AnyBelow(Targets(e), f) && Load(e) < e.capacity then
        var (c, b2) := TryBoarding(a, f, Up);
        (c, b1 || b2)
      else (a, b1)
    else (s, false)
  }

  /** People at this floor: both queues plus the car. */
  function AtFloor(s: ServerState, f: int): int
    requires s.elevator.Some?
  {
    TotalAt(s.waiting, f, Up) + TotalAt(s.waiting, f, Down) + Load(s.elevator.value)
  }

  lemma TryBoardingConserves(s: ServerState, f: int, d: Dir)
    requires ServerValid(s) && s.elevator.Some? && s.elevator.value.floor == f
    ensures var (r, boarded) := TryBoarding(s, f, d);
      && ServerValid(r) && r.elevator.Some?
      && SameConfig(r.elevator.value, s.elevator.value)
      && r.elevator.value.floor == f && r.elevator.value.direction == s.elevator.value.direction
      && AtFloor(r, f) == AtFloor(s, f)
      && (boarded <==> Load(r.elevator.value) > Load(s.elevator.value))
      && Load(r.elevator.value) >= Load(s.elevator.value)
  {
    TryBoardingFacts(s, f, d);
    var other := if d == Up then Down else Up;
    assert ListAt(TryBoarding(s, f, d).0.waiting, f, other) == ListAt(s.waiting, f, other);
  }

  lemma BoardingAttemptsFacts(s: ServerState, f: int)
    requires ServerValid(s) && s.elevator.Some? && s.elevator.value.floor == f
    ensures var (r, boarded) := BoardingAttempts(s, f);
      && ServerValid(r)
      && SameConfig(r.elevator.value, s.elevator.value)
      && r.elevator.value.floor == f && r.elevator.value.direction == s.elevator.value.direction
      && AtFloor(r, f) == AtFloor(s, f)
      && (boarded <==> Load(r.elevator.value) > Load(s.elevator.value))
  {
    var arrival := s.elevator.value.direction;
    assert arrival in {-1, 0, 1};
    var first := if arrival == -1 then Down else Up;
    var second := if arrival == -1 then Up else Down;
    TryBoardingConserves(s, f, first);
    var (a, b1) := TryBoarding(s, f, first);
    TryBoardingConserves(a, f, second);
    var (c, b2) := TryBoarding(a, f, second);
    var e := a.elevator.value;
    var more := if arrival == 0 then true
      else if arrival == 1 then !AnyAbove(Targets(e), f)
      else !AnyBelow(Targets(e), f);
    if more && Load(e) < e.capacity {
      assert BoardingAttempts(s, f) == (c, b1 || b2);
    } else {
      assert BoardingAttempts(s, f) == (a, b1);
    }
  }

  /** When anyone is still queued here, the stop is requested again (for up when
      someone waits to go up); a floor entry left without directions is dropped. */
  function ReRequest(s: ServerState, f: int): (r: ServerState)
    requires s.elevator.Some?
    ensures r.elevator.Some? && r.pending == s.pending && r.decision == s.decision && r.cycleTime == s.cycleTime
    ensures forall g, k :: ListAt(r.waiting, g, k) == ListAt(s.waiting, g, k)
    ensures var e := s.elevator.value;
      var e1 := r.elevator.value;
      var up := ListAt(s.waiting, f, Up) != [];
      var down := ListAt(s.waiting, f, Down) != [];
      && (up || down ==> e1 == AddExternalRequest(e, f, if up then 1 else -1))
      && (!(up || down) ==> e1 == e)
    ensures NoEmpty(s.waiting) ==> r.waiting == s.waiting
  {
    var e := s.elevator.value;
    var up := ListAt(s.waiting, f, Up);
    var down := ListAt(s.waiting, f, Down);
    if up != [] || down != [] then
      s.(elevator := Some(AddExternalRequest(e, f, if up != [] then 1 else -1)))
    else if f in s.waiting && s.waiting[f] == map[] then
      s.(waiting := s.waiting - {f})
    else s
  }

  /** After boarding at an idle car, head for the passengers' destinations: up if any
      lies above, else down if any lies below. */
  function HeadForDestinations(e: Elevator, f: int): (r: Elevator)
    ensures r == e.(direction := r.direction)
    ensures AnyAbove(DestFloors(e), f) ==> r.direction == 1
    ensures !AnyAbove(DestFloors(e), f) && AnyBelow(DestFloors(e), f) ==> r.direction == -1
    ensures !AnyAbove(DestFloors(e), f) && !AnyBelow(DestFloors(e), f) ==> r == e
  {
    if AnyAbove(DestFloors(e), f) then e.(direction := 1)
    else if AnyBelow(DestFloors(e), f) then e.(direction := -1)
    else e
  }

  /** `handle_boarding` at floor `f`. */
  function HandleBoarding(s: ServerState, f: int): (r: (ServerState, bool))
    requires PendingNeedsElevator(s)
    ensures s.elevator.None? ==> r == (s, false)
    ensures r.0.elevator.Some? <==> s.elevator.Some?
    ensures r.0.cycleTime == s.cycleTime
    ensures s.elevator.Some? && s.elevator.value.direction in {-1, 0, 1} ==> r.0.pending.None?
    ensures s.pending.None? ==>
      forall g, k :: g != f ==> ListAt(r.0.waiting, g, k) == ListAt(s.waiting, g, k)
  {
    if s.elevator.None? then (s, false)
    else
      var arrival := s.elevator.value.direction;
      var (s1, boarded) := BoardingAttempts(s, f);
      var s2 := ReRequest(s1, f);
      var e2 := s2.elevator.value;
      var s3 := if boarded && arrival == 0 then s2.(elevator := Some(HeadForDestinations(e2, f))) else s2;
      (s3, boarded)
  }

  /** Between handlers, the boarding phase at the car's floor keeps the invariant,
      moves people only from this floor's queues into the car, reports whether anyone
      boarded, requests the stop again while anyone is still queued here, and points
      an idle car that took people on towards their destinations. */
  lemma HandleBoardingFacts(s: ServerState, f: int)
    requires ServerValid(s) && s.elevator.Some? && s.elevator.value.floor == f
    ensures var (r, boarded) := HandleBoarding(s, f);
      var e := s.elevator.value;
      var e1 := r.elevator.value;
      && ServerValid(r)
      && SameConfig(e1, e) && e1.floor == f
      && AtFloor(r, f) == AtFloor(s, f)
      && (boarded <==> Load(e1) > Load(e))
      && (ListAt(r.waiting, f, Up) != [] ==> 1 in StopsAt(e1, f))
      && (ListAt(r.waiting, f, Up) == [] && ListAt(r.waiting, f, Down) != [] ==> -1 in StopsAt(e1, f))
      && (boarded && e.direction == 0 && AnyAbove(DestFloors(e1), f) ==> e1.direction == 1)
      && (boarded && e.direction == 0 && !AnyAbove(DestFloors(e1), f) && AnyBelow(DestFloors(e1), f) ==> e1.direction == -1)
      && (e.direction != 0 ==> e1.direction == e.direction)
  {
    BoardingAttemptsFacts(s, f);
    var (s1, boarded) := BoardingAttempts(s, f);
    ReRequestFacts(s1, f);
    var s2 := ReRequest(s1, f);
    assert AtFloor(s2, f) == AtFloor(s, f);
    if boarded && s.elevator.value.direction == 0 {
      HeadForDestinationsFacts(s2, f);
    }
  }

  /** Turning the car changes neither the queues, the load nor the stops, and keeps
      the invariant. */
  lemma HeadForDestinationsFacts(s: ServerState, f: int)
    requires ServerValid(s) && s.elevator.Some?
    ensures var e := s.elevator.value;
      var r := s.(elevator := Some(HeadForDestinations(e, f)));
      && ServerValid(r) && AtFloor(r, f) == AtFloor(s, f)
      && r.elevator.value.stops == e.stops && r.elevator.value.dests == e.dests
  {
    var e := s.elevator.value;
    var e1 := HeadForDestinations(e, f);
    assert Valid(e1);
  }

  lemma ReRequestFacts(s: ServerState, f: int)
    requires ServerValid(s) && s.elevator.Some? && s.elevator.value.floor == f
    ensures var r := ReRequest(s, f);
      var e := s.elevator.value;
      var e1 := r.elevator.value;
      && ServerValid(r) && r.waiting == s.waiting
      && SameConfig(e1, e) && e1.floor == f && e1.dests == e.dests
      && (e.direction != 0 ==> e1.direction == e.direction)
      && (ListAt(r.waiting, f, Up) != [] ==> 1 in StopsAt(e1, f))
      && (ListAt(r.waiting, f, Up) == [] && ListAt(r.waiting, f, Down) != [] ==> -1 in StopsAt(e1, f))
  {
  }

  // ---------------------------------------------------------------------------
  // One tick of `simulation_loop`

  /** Step the car; when it stopped, run the boarding phase at its floor. The flag is
      whether the step did anything or anyone boarded. */
  function SimulationTick(s: ServerState): (r: (ServerState, bool))
    requires PendingNeedsElevator(s)
    ensures s.elevator.None? ==> r == (s, false)
    ensures r.0.elevator.Some? <==> s.elevator.Some?
    ensures s.elevator.Some? && !Step(s.elevator.value).0.stoppedThisStep ==>
      r.0 == s.(elevator := Some(Step(s.elevator.value).0)) && r.1 == Step(s.elevator.value).1
  {
    if s.elevator.None? then (s, false)
    else
      var (e1, action) := Step(s.elevator.value);
      var s1 := s.(elevator := Some(e1));
      if e1.stoppedThisStep then
        var (s2, boarded) := HandleBoarding(s1, e1.floor);
        (s2, action || boarded)
      else (s1, action)
  }

  /** The invariant survives every tick, and the waiting queues change only at the
      floor where the car stopped. */
  lemma SimulationTickFacts(s: ServerState)
    requires ServerValid(s)
    ensures ServerValid(SimulationTick(s).0)
    ensures s.elevator.Some? ==>
      forall g, k :: g != s.elevator.value.floor ==> ListAt(SimulationTick(s).0.waiting, g, k) == ListAt(s.waiting, g, k)
    ensures s.elevator.Some? && !Step(s.elevator.value).0.stoppedThisStep ==> SimulationTick(s).0.waiting == s.waiting
    ensures SimulationTick(s).0.cycleTime == s.cycleTime
    ensures s.elevator.Some? ==>
      && SameConfig(SimulationTick(s).0.elevator.value, s.elevator.value)
      && SimulationTick(s).0.elevator.value.floor == Step(s.elevator.value).0.floor
  {
    if s.elevator.Some? {
      var (e1, action) := Step(s.elevator.value);
      var s1 := s.(elevator := Some(e1));
      assert ServerValid(s1);
      if e1.stoppedThisStep {
        HandleBoardingFacts(s1, e1.floor);
      }
    }
  }

  // ---------------------------------------------------------------------------
  // Messages

  /** A validated configuration. */
  datatype SimConfig = SimConfig(lowest: int, highest: int, capacity: int, start: int, cycleTime: real)

  /** Which of the three checks rejected a configuration; the third cannot fire. */
  datatype ConfigError = BadTypesOrRange | BadStartFloor | BadFloorOrder

  /** The configure checks on the five values (message field or default). */
  function ValidateConfigure(minF: Json, maxF: Json, cap: Json, startF: Json, cycle: Json): (r: Result<SimConfig, ConfigError>)
    ensures r.Success? <==>
      && PyInt(minF).Some? && PyInt(maxF).Some? && PyInt(cap).Some? && PyInt(startF).Some? && PyNumber(cycle).Some?
      && PyInt(cap).value >= 1 && 1.0 <= PyNumber(cycle).value <= 10.0
      && PyInt(minF).value <= PyInt(startF).value <= PyInt(maxF).value
    ensures r.Success? ==>
      r.value == SimConfig(PyInt(minF).value, PyInt(maxF).value, PyInt(cap).value, PyInt(startF).value, PyNumber(cycle).value)
    ensures r.Success? ==> New(r.value.lowest, r.value.highest, r.value.capacity, r.value.start).Success?
    ensures r != Failure(BadFloorOrder)
  {
    if !(&& PyInt(minF).Some? && PyInt(maxF).Some? && PyInt(cap).Some? && PyInt(cap).value >= 1
         && PyInt(startF).Some? && PyNumber(cycle).Some? && 1.0 <= PyNumber(cycle).value <= 10.0)
    then Failure(BadTypesOrRange)
    else
      var mn := PyInt(minF).value;
      var mx := PyInt(maxF).value;
      var st := PyInt(startF).value;
      if !(mn <= st <= mx) then Failure(BadStartFloor)
      else if mn > mx then Failure(BadFloorOrder)
      else Success(SimConfig(mn, mx, PyInt(cap).value, st, PyNumber(cycle).value))
  }

  /** The configure check cannot tell an integral cycle time sent as an int from the
      same value sent as a float. */
  lemma IntegralCycleTimeAlike(minF: Json, maxF: Json, cap: Json, startF: Json, n: int)
    ensures ValidateConfigure(minF, maxF, cap, startF, JInt(n))
         == ValidateConfigure(minF, maxF, cap, startF, JFloat(n as real))
  {
  }

  /** The values a configure message falls back to for the fields it omits. */
  datatype ConfigDefaults = ConfigDefaults(minF: Json, maxF: Json, cap: Json, startF: Json, cycle: Json)

  /** First message on a connection: the module constants. */
  const InitialDefaults := ConfigDefaults(JInt(DefaultLowest), JInt(DefaultHighest), JInt(DefaultCapacity), JInt(DefaultStart), JFloat(DefaultCycle))

  /** A later configure: the current building and cycle time, start floor 0. */
  function ReconfigDefaults(s: ServerState): (r: ConfigDefaults)
    ensures r.startF == JInt(DefaultStart) && r.cycle == JFloat(s.cycleTime)
    ensures s.elevator.None? ==> r == InitialDefaults.(cycle := JFloat(s.cycleTime))
    ensures s.elevator.Some? ==>
      r.minF == JInt(s.elevator.value.lowest) && r.maxF == JInt(s.elevator.value.highest)
      && r.cap == JInt(s.elevator.value.capacity)
  {
    match s.elevator
    case None => ConfigDefaults(JInt(DefaultLowest), JInt(DefaultHighest), JInt(DefaultCapacity), JInt(DefaultStart), JFloat(s.cycleTime))
    case Some(e) => ConfigDefaults(JInt(e.lowest), JInt(e.highest), JInt(e.capacity), JInt(DefaultStart), JFloat(s.cycleTime))
  }

  /** Handle a configure message: on success a fresh car, empty queues and no pending
      decision; on failure nothing changes and an error goes back, closing the
      connection when it was the first message. */
  function Configure(s: ServerState, m: Message, first: bool): (r: (ServerState, Reply))
    ensures var d := if first then InitialDefaults else ReconfigDefaults(s);
      var v := ValidateConfigure(Get(m, "min_floor", d.minF), Get(m, "max_floor", d.maxF), Get(m, "capacity", d.cap),
                                 Get(m, "start_floor", d.startF), Get(m, "cycle_time", d.cycle));
      && (v.Success? ==>
          && r.1 == Quiet && ServerValid(r.0) && r.0.elevator.Some? && r.0.waiting == map[]
          && r.0.cycleTime == v.value.cycleTime
          && var e := r.0.elevator.value;
             && e.lowest == v.value.lowest && e.highest == v.value.highest && e.capacity == v.value.capacity
             && e.floor == v.value.start && e.direction == 0 && Load(e) == 0 && e.stops == map[])
      && (v.Failure? ==> r.0 == s)
      && (v.Failure? && first ==> r.1 == SendErrorAndClose("Invalid config data received."))
      && (v.Failure? && !first ==> r.1 == SendError("Invalid re-config data received."))
  {
    var d := if first then InitialDefaults else ReconfigDefaults(s);
    var v := ValidateConfigure(Get(m, "min_floor", d.minF), Get(m, "max_floor", d.maxF), Get(m, "capacity", d.cap),
                               Get(m, "start_floor", d.startF), Get(m, "cycle_time", d.cycle));
    match v
    case Success(c) =>
      var e := New(c.lowest, c.highest, c.capacity, c.start).value;
      (ServerState(Some(e), map[], None, 0, c.cycleTime), Quiet)
    case Failure(_) =>
      (s, if first then SendErrorAndClose("Invalid config data received.") else SendError("Invalid re-config data received."))
  }

  /** A re-configure that names no field rebuilds the same building with the car at
      floor 0, provided floor 0 is in it and the cycle time is in range. */
  lemma EmptyReconfigureKeepsBuilding(s: ServerState)
    requires s.elevator.Some? && IsValidFloor(s.elevator.value, 0) && s.elevator.value.capacity >= 1
    requires 1.0 <= s.cycleTime <= 10.0
    ensures var (r, reply) := Configure(s, map[], false);
      && reply == Quiet && r.cycleTime == s.cycleTime
      && SameConfig(r.elevator.value, s.elevator.value) && r.elevator.value.floor == 0
  {
  }

  /** A first message that configures nothing builds the default building. */
  lemma EmptyFirstConfigureUsesDefaults(s: ServerState)
    ensures var (r, reply) := Configure(s, map[], true);
      && reply == Quiet && r.cycleTime == DefaultCycle
      && var e := r.elevator.value;
         e.lowest == DefaultLowest && e.highest == DefaultHighest && e.capacity == DefaultCapacity && e.floor == DefaultStart
  {
  }

  /** A `call`: floor and destination must be valid floor numbers, `num_passengers`
      (default 1) a positive integer, and floor and destination different. The group
      joins the end of the queue for its direction and the floor is requested. */
  function HandleCall(s: ServerState, m: Message): (r: (ServerState, Reply))
    ensures s.elevator.None? ==> r == (s, Quiet)
    ensures s.elevator.Some? ==>
      var e := s.elevator.value;
      var floor := PyInt(Get(m, "floor", JNull));
      var dest := PyInt(Get(m, "destination", JNull));
      var num := PyInt(Get(m, "num_passengers", JInt(1)));
      var ok := && floor.Some? && IsValidFloor(e, floor.value) && dest.Some? && IsValidFloor(e, dest.value)
                && num.Some? && num.value >= 1 && floor.value != dest.value;
      && (ok ==>
          var d := if dest.value > floor.value then Up else Down;
          && r.1 == Quiet
          && ListAt(r.0.waiting, floor.value, d) == ListAt(s.waiting, floor.value, d) + [Group(dest.value, num.value)]
          && (forall g, k :: (g != floor.value || k != d) ==> ListAt(r.0.waiting, g, k) == ListAt(s.waiting, g, k))
          && r.0.elevator == Some(AddExternalRequest(e, floor.value, if d == Up then 1 else -1))
          && r.0.pending == s.pending && r.0.decision == s.decision && r.0.cycleTime == s.cycleTime)
      && (!ok ==> r == (s, SendError("Invalid call data received.")))
  {
    if s.elevator.None? then (s, Quiet)
    else
      var e := s.elevator.value;
      var floor := PyInt(Get(m, "floor", JNull));
      var dest := PyInt(Get(m, "destination", JNull));
      var num := PyInt(Get(m, "num_passengers", JInt(1)));
      if floor.None? || !IsValidFloor(e, floor.value) then (s, SendError("Invalid call data received."))
      else if dest.None? || !IsValidFloor(e, dest.value) then (s, SendError("Invalid call data received."))
      else if num.None? || num.value < 1 then (s, SendError("Invalid call data received."))
      else if floor.value == dest.value then (s, SendError("Invalid call data received."))
      else
        var d := if dest.value > floor.value then Up else Down;
        var w := Store(s.waiting, floor.value, d, ListAt(s.waiting, floor.value, d) + [Group(dest.value, num.value)]);
        (s.(elevator := Some(AddExternalRequest(e, floor.value, if d == Up then 1 else -1)), waiting := w), Quiet)
  }

  lemma HandleCallValid(s: ServerState, m: Message)
    requires ServerValid(s)
    ensures ServerValid(HandleCall(s, m).0)
  {
    if s.elevator.Some? {
      var e := s.elevator.value;
      var floor := PyInt(Get(m, "floor", JNull));
      var dest := PyInt(Get(m, "destination", JNull));
      var num := PyInt(Get(m, "num_passengers", JInt(1)));
      if && floor.Some? && IsValidFloor(e, floor.value) && dest.Some? && IsValidFloor(e, dest.value)
         && num.Some? && num.value >= 1 && floor.value != dest.value {
        var d := if dest.value > floor.value then Up else Down;
        var l := ListAt(s.waiting, floor.value, d);
        assert ListOk(l, floor.value, d, e.lowest, e.highest) by {
          if HasList(s.waiting, floor.value, d) { assert l == s.waiting[floor.value][d]; }
        }
        var l1 := l + [Group(dest.value, num.value)];
        assert ListOk(l1, floor.value, d, e.lowest, e.highest) by {
          forall i | 0 <= i < |l1| ensures GroupOk(l1[i], floor.value, d, e.lowest, e.highest) {
            if i < |l| { assert l1[i] == l[i]; }
          }
        }
        StorePreservesWellFormed(s.waiting, floor.value, d, l1, e.lowest, e.highest);
      }
    }
  }

  /** A `ping`: a valid floor and a direction "up" or "down" request a stop there;
      the queues are untouched. */
  function HandlePing(s: ServerState, m: Message): (r: ServerState)
    ensures r.waiting == s.waiting && r.pending == s.pending && r.decision == s.decision && r.cycleTime == s.cycleTime
    ensures s.elevator.None? ==> r == s
    ensures s.elevator.Some? ==>
      var e := s.elevator.value;
      var floor := PyInt(Get(m, "floor", JNull));
      var dir := Get(m, "direction", JNull);
      if floor.Some? && IsValidFloor(e, floor.value) && (dir == JStr("up") || dir == JStr("down")) then
        r.elevator == Some(AddExternalRequest(e, floor.value, if dir == JStr("up") then 1 else -1))
        && (if dir == JStr("up") then 1 else -1) in StopsAt(r.elevator.value, floor.value)
      else r == s
    ensures ServerValid(s) ==> ServerValid(r)
  {
    if s.elevator.None? then s
    else
      var e := s.elevator.value;
      var floor := PyInt(Get(m, "floor", JNull));
      var dir := Get(m, "direction", JNull);
      if floor.Some? && IsValidFloor(e, floor.value) && (dir == JStr("up") || dir == JStr("down")) then
        s.(elevator := Some(AddExternalRequest(e, floor.value, if dir == JStr("up") then 1 else -1)))
      else s
  }

  /** The first message on a connection must be a configure; anything else closes it. */
  function HandleFirstMessage(s: ServerState, m: Message): (r: (ServerState, Reply))
    ensures Get(m, "type", JNull) != JStr("configure") ==> r == (s, Close)
    ensures Get(m, "type", JNull) == JStr("configure") ==> r == Configure(s, m, true)
    ensures r.1 == Quiet ==> ServerValid(r.0)
    ensures r.1 != Quiet ==> r.0 == s
  {
    if Get(m, "type", JNull) == JStr("configure") then Configure(s, m, true) else (s, Close)
  }

  /** A later message, dispatched on its `type`. The retired `boarding_decision` and
      unknown types are ignored; no later message closes the connection. */
  function HandleMessage(s: ServerState, m: Message): (r: (ServerState, Reply))
    ensures r.1 == Quiet || r.1.SendError?
    ensures var t := Get(m, "type", JNull);
      t != JStr("call") && t != JStr("ping") && t != JStr("configure") ==> r == (s, Quiet)
  {
    var t := Get(m, "type", JNull);
    if t == JStr("call") then HandleCall(s, m)
    else if t == JStr("ping") then (HandlePing(s, m), Quiet)
    else if t == JStr("boarding_decision") then (s, Quiet)
    else if t == JStr("configure") then Configure(s, m, false)
    else (s, Quiet)
  }

  /** No message breaks the invariant. */
  lemma HandleMessageValid(s: ServerState, m: Message)
    requires ServerValid(s)
    ensures ServerValid(HandleMessage(s, m).0)
  {
    if Get(m, "type", JNull) == JStr("call") {
      HandleCallValid(s, m);
    }
  }

  // ---------------------------------------------------------------------------
  // The state broadcast (`get_current_state`)

  /** The broadcast state. */
  datatype Snapshot = Snapshot(
    lowest: int,
    highest: int,
    capacity: int,
    currentFloor: int,
    direction: int,
    load: int,
    destinations: string,
    stops: StopsDisplay,
    waiting: Queues,
    cycleTime: real)

  /** The non-empty lists of floor `f`. */
  function NonEmptyAt(w: Queues, f: int): map<Dir, seq<Group>> {
    (if ListAt(w, f, Up) != [] then map[Up := ListAt(w, f, Up)] else map[])
    + (if ListAt(w, f, Down) != [] then map[Down := ListAt(w, f, Down)] else map[])
  }

  /** The copy of the queues that is broadcast: every list reads the same, but
      empty lists and floors left without any are not copied. */
  function WaitingCopy(w: Queues): (r: Queues)
    ensures forall f, d :: ListAt(r, f, d) == ListAt(w, f, d)
    ensures forall f :: f in r <==> ListAt(w, f, Up) != [] || ListAt(w, f, Down) != []
    ensures NoEmpty(r)
  {
    var r := map f | f in w && (ListAt(w, f, Up) != [] || ListAt(w, f, Down) != []) :: NonEmptyAt(w, f);
    assert forall f, d :: ListAt(r, f, d) == ListAt(w, f, d) by {
      forall f, d ensures ListAt(r, f, d) == ListAt(w, f, d) {
        if f in r {
          assert r[f] == NonEmptyAt(w, f);
          if d == Up {
            assert Up in r[f] <==> ListAt(w, f, Up) != [];
          } else {
            assert Down in r[f] <==> ListAt(w, f, Down) != [];
          }
        } else {
          assert ListAt(w, f, d) == [] by { assert d == Up || d == Down; }
        }
      }
    }
    r
  }

  /** `get_current_state`: the defaults before configuration, else the car's fields,
      its two displays, the queue copy and the cycle time. */
  function GetCurrentState(s: ServerState): (r: Snapshot)
    ensures s.elevator.None? ==>
      r == Snapshot(DefaultLowest, DefaultHighest, DefaultCapacity, DefaultStart, 0, 0, "N/A (Not Initialized)",
                    Labels([]), map[], s.cycleTime)
    ensures s.elevator.Some? ==>
      var e := s.elevator.value;
      && r.lowest == e.lowest && r.highest == e.highest && r.capacity == e.capacity
      && r.currentFloor == e.floor && r.direction == e.direction && r.load == Load(e)
      && (r.destinations == "Empty" <==> Load(e) == 0)
      && (r.stops == NoStops <==> e.stops == map[])
      && (forall f, d :: ListAt(r.waiting, f, d) == ListAt(s.waiting, f, d))
      && r.cycleTime == s.cycleTime
      && r.destinations == PassengerDestSummary(e) && r.stops == SortedStopsDisplay(e)
    ensures NoEmpty(r.waiting)
  {
    match s.elevator
    case None =>
      Snapshot(DefaultLowest, DefaultHighest, DefaultCapacity, DefaultStart, 0, 0, "N/A (Not Initialized)",
               Labels([]), map[], s.cycleTime)
    case Some(e) =>
      Snapshot(e.lowest, e.highest, e.capacity, e.floor, e.direction, Load(e), PassengerDestSummary(e),
               SortedStopsDisplay(e), WaitingCopy(s.waiting), s.cycleTime)
  }

  /** Between handlers the queues hold no empty entry, so the broadcast copy is the
      queues themselves. */
  lemma WaitingCopyIdentity(w: Queues)
    requires NoEmpty(w)
    ensures WaitingCopy(w) == w
  {
    var r := WaitingCopy(w);
    forall f | f in w ensures f in r {
      var k :| k in w[f];
      assert ListAt(w, f, k) != [];
      assert k == Up || k == Down;
    }
    assert r.Keys == w.Keys;
    forall f | f in w ensures r[f] == w[f] {
      NonEmptyAtIdentity(w, f);
    }
  }

  /** A floor entry with no empty list is its own non-empty part. */
  lemma NonEmptyAtIdentity(w: Queues, f: int)
    requires NoEmpty(w) && f in w
    ensures NonEmptyAt(w, f) == w[f]
  {
    var m := NonEmptyAt(w, f);
    forall d ensures (d in m <==> d in w[f]) && (d in w[f] ==> m[d] == w[f][d]) {
      assert d == Up || d == Down;
    }
  }
}
