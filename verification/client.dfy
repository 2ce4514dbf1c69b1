/** The browser client of static/script.js, reduced to its state: the configuration
    globals, the slider values, the per-floor call controls, the single boarding
    decision slot, the socket, the buttons it disables, and the log of messages it
    sends. Every handler is a function from one client state to the next. */
module ClientModel {
  import opened Wrappers
  import opened Text
  import ElevatorModel
  import Server

  // ---------------------------------------------------------------------------
  // displayFloor

  /** The argument of `displayFloor`: a JS number (always an integer here) or a string. */
  datatype FloorArg = NumArg(n: int) | StrArg(s: string)

  /** `displayFloor`: '?' stays '?', the number 0 and the strings "G"/"g" are "G",
      anything else is what `parseInt` makes of it, or '?' when that is NaN. */
  function DisplayFloor(a: FloorArg): (r: string)
    ensures a == StrArg("?") ==> r == "?"
    ensures a == NumArg(0) || a == StrArg("G") || a == StrArg("g") ==> r == "G"
    ensures a.NumArg? && a.n != 0 ==> JsParseInt(r) == Some(a.n) && r != "G" && r != "?"
    ensures a.StrArg? && a.s != "?" && a.s != "G" && a.s != "g" ==>
      && (r == "?" <==> JsParseInt(a.s).None?)
      && (JsParseInt(a.s).Some? ==> JsParseInt(r) == JsParseInt(a.s))
      && r != "G"
  {
    if a == StrArg("?") then "?"
    else if a == NumArg(0) then "G"
    else if a == StrArg("G") || a == StrArg("g") then "G"
    else
      var text := match a case NumArg(n) => IntToString(n) case StrArg(s) => s;
      var num := JsParseInt(text);
      if num.None? then
        assert a.StrArg? by { if a.NumArg? { JsParseIntRoundTrip(a.n); } }
        "?"
      else
        JsParseIntRoundTrip(num.value);
        NotALetter(num.value);
        assert a.NumArg? ==> num.value == a.n by { if a.NumArg? { JsParseIntRoundTrip(a.n); } }
        IntToString(num.value)
  }

  /** A decimal rendering is neither "G" nor "?". */
  lemma NotALetter(n: int)
    ensures IntToString(n) != "G" && IntToString(n) != "?"
  {
    IntToStringRoundTrip(n);
    assert ParseCanonical("G") == None by { assert !IsDigit('G'); }
    assert ParseCanonical("?") == None by { assert !IsDigit('?'); }
  }

  /** The client labels a floor number exactly as the server does. */
  lemma DisplayFloorAgreesWithServer(f: int)
    ensures DisplayFloor(NumArg(f)) == ElevatorModel.DisplayFloor(f)
  {
    if f != 0 {
      JsParseIntRoundTrip(f);
    }
  }

  // ---------------------------------------------------------------------------
  // Client state

  /** `LOWEST_FLOOR`, `HIGHEST_FLOOR`, `CAPACITY`, `START_FLOOR`, `CYCLE_TIME`. */
  datatype Config = Config(lowest: int, highest: int, capacity: int, start: int, cycleTime: real)

  const InitialConfig := Config(0, 5, 8, 0, 2.0)

  /** An integer slider: missing from the page, or present with its string value. */
  datatype Slider = NoSlider | Slider(value: string)

  /** The speed slider; `parseFloat` of its value is taken as given (None for NaN). */
  datatype SpeedSlider = NoSpeedSlider | SpeedSlider(parsed: Option<real>)

  /** One floor's call controls: the selected destination (`""` for none) and the
      passenger count held by the count display. */
  datatype Row = Row(selectedDest: string, num: string)

  /** What `createBuildingUI` last produced. */
  datatype Building = NotBuilt | InvalidRange | Built(lowest: int, highest: int)

  datatype Socket = NoSocket | Connecting | Open | Closing

  /** The `data` of a `decision_needed` message. */
  datatype Decision = Decision(floor: int, direction: string, destination: int, numWaiting: int, canBoard: int)

  /** The four configuration fields of a state message; None where the field is
      not a number. */
  datatype StateFields = StateFields(lowest: Option<int>, highest: Option<int>, capacity: Option<int>, cycleTime: Option<real>)

  datatype OutMsg =
    | ConfigureMsg(minFloor: int, maxFloor: int, startFloor: int, capacity: int, cycleTime: real)
    | CallMsg(floor: int, destination: int, numPassengers: int)
    | BoardingDecisionMsg(floor: int, direction: string, destination: int, numToBoard: int)

  datatype Client = Client(
    config: Config,
    minSlider: Slider,
    maxSlider: Slider,
    capSlider: Slider,
    speedSlider: SpeedSlider,
    configInputsDisabled: bool,
    socket: Socket,
    connectDisabled: bool,
    modalPresent: bool,
    promptVisible: bool,
    decision: Option<Decision>,
    decisionInput: string,
    rows: map<int, Row>,
    building: Building,
    builds: nat,
    lastState: Option<StateFields>,
    outbox: seq<OutMsg>)

  // ---------------------------------------------------------------------------
  // readConfigInputs

  /** The values `readConfigInputs` returns. `startFloor` is the min slider as parsed,
      before the NaN default; None stands for NaN. */
  datatype ConfigRead = ConfigRead(minFloor: int, maxFloor: int, startFloor: Option<int>, capacity: int, cycleTime: real, valid: bool)

  /** `parseInt(slider?.value ?? global)`; `parseInt` of an integer number is that number. */
  function ReadInt(sl: Slider, global: int): (r: Option<int>)
    ensures sl.NoSlider? ==> r == Some(global)
    ensures sl.Slider? ==> r == JsParseInt(sl.value)
  {
    match sl
    case NoSlider => JsParseIntRoundTrip(global); JsParseInt(IntToString(global))
    case Slider(v) => JsParseInt(v)
  }

  function ReadSpeed(sl: SpeedSlider, global: real): Option<real> {
    match sl
    case NoSpeedSlider => Some(global)
    case SpeedSlider(p) => p
  }

  /** Writing an integer back into a slider that exists. */
  function WriteBack(sl: Slider, v: int): Slider {
    if sl.Slider? then Slider(IntToString(v)) else sl
  }

  predicate BadCapacity(v: Option<int>) { v.None? || v.value < 1 }
  predicate BadSpeed(v: Option<real>) { v.None? || v.value < 1.0 || v.value > 3.0 }

  /** `readConfigInputs(updateGlobals)`: NaN floors become 0 and 5, a NaN or
      non-positive capacity 8, a NaN speed or one outside [1.0, 3.0] 2.0; each such
      replacement marks the result invalid and is written back into its slider. The
      globals change only when asked to and the values were valid. */
  function ReadConfigInputs(c: Client, updateGlobals: bool): (r: (Client, ConfigRead))
    ensures var mn := ReadInt(c.minSlider, c.config.lowest);
      var mx := ReadInt(c.maxSlider, c.config.highest);
      var cap := ReadInt(c.capSlider, c.config.capacity);
      var sp := ReadSpeed(c.speedSlider, c.config.cycleTime);
      var v := r.1;
      && v.startFloor == mn
      && v.minFloor == (if mn.None? then 0 else mn.value)
      && v.maxFloor == (if mx.None? then 5 else mx.value)
      && v.capacity == (if BadCapacity(cap) then 8 else cap.value)
      && v.cycleTime == (if BadSpeed(sp) then 2.0 else sp.value)
      && (v.valid <==> mn.Some? && mx.Some? && !BadCapacity(cap) && !BadSpeed(sp))
    ensures r.1.startFloor.Some? ==> r.1.startFloor.value == r.1.minFloor
    ensures r.1.capacity >= 1 && 1.0 <= r.1.cycleTime <= 3.0
    ensures updateGlobals && r.1.valid ==>
      r.0.config == Config(r.1.minFloor, r.1.maxFloor, r.1.capacity, r.1.minFloor, r.1.cycleTime)
    ensures !(updateGlobals && r.1.valid) ==> r.0.config == c.config
    ensures r.1.valid ==> r.0 == c.(config := r.0.config)
    ensures r.0 == c.(config := r.0.config, minSlider := r.0.minSlider, maxSlider := r.0.maxSlider,
                      capSlider := r.0.capSlider, speedSlider := r.0.speedSlider)
    ensures ClientValid(c) ==> ClientValid(r.0)
  {
    var mn := ReadInt(c.minSlider, c.config.lowest);
    var mx := ReadInt(c.maxSlider, c.config.highest);
    var cap := ReadInt(c.capSlider, c.config.capacity);
    var sp := ReadSpeed(c.speedSlider, c.config.cycleTime);
    var start := mn;
    var minFloor := if mn.None? then 0 else mn.value;
    var maxFloor := if mx.None? then 5 else mx.value;
    var capacity := if BadCapacity(cap) then 8 else cap.value;
    var speed := if BadSpeed(sp) then 2.0 else sp.value;
    var valid := mn.Some? && mx.Some? && !BadCapacity(cap) && !BadSpeed(sp);
    var c1 := c.(
      minSlider := if mn.None? then WriteBack(c.minSlider, minFloor) else c.minSlider,
      maxSlider := if mx.None? then WriteBack(c.maxSlider, maxFloor) else c.maxSlider,
      capSlider := if BadCapacity(cap) then WriteBack(c.capSlider, capacity) else c.capSlider,
      speedSlider := if BadSpeed(sp) && c.speedSlider.SpeedSlider? then SpeedSlider(Some(speed)) else c.speedSlider);
    var c2 := if updateGlobals && valid then c1.(config := Config(minFloor, maxFloor, capacity, start.value, speed)) else c1;
    (c2, ConfigRead(minFloor, maxFloor, start, capacity, speed, valid))
  }

  /** Once the sliders exist, one read repairs them: reading again finds them valid
      and returns the same values. */
  lemma ReadConfigInputsSettles(c: Client, u1: bool, u2: bool)
    requires c.minSlider.Slider? && c.maxSlider.Slider? && c.capSlider.Slider? && c.speedSlider.SpeedSlider?
    ensures var (c1, v1) := ReadConfigInputs(c, u1);
      var (c2, v2) := ReadConfigInputs(c1, u2);
      && v2.valid
      && v2.minFloor == v1.minFloor && v2.maxFloor == v1.maxFloor && v2.capacity == v1.capacity
      && v2.cycleTime == v1.cycleTime && v2.startFloor == Some(v1.minFloor)
  {
    var (c1, v1) := ReadConfigInputs(c, u1);
    var mn := ReadInt(c.minSlider, c.config.lowest);
    var mx := ReadInt(c.maxSlider, c.config.highest);
    var cap := ReadInt(c.capSlider, c.config.capacity);
    IntSliderSettles(c.minSlider, mn.None?, v1.minFloor);
    IntSliderSettles(c.maxSlider, mx.None?, v1.maxFloor);
    IntSliderSettles(c.capSlider, BadCapacity(cap), v1.capacity);
    assert c1.minSlider == if mn.None? then WriteBack(c.minSlider, v1.minFloor) else c.minSlider;
    assert c1.maxSlider == if mx.None? then WriteBack(c.maxSlider, v1.maxFloor) else c.maxSlider;
    assert c1.capSlider == if BadCapacity(cap) then WriteBack(c.capSlider, v1.capacity) else c.capSlider;
    assert ReadSpeed(c1.speedSlider, c1.config.cycleTime) == Some(v1.cycleTime);
  }

  /** A slider that read as `v`, or was repaired to `v`, reads as `v` next time. */
  lemma IntSliderSettles(sl: Slider, repaired: bool, v: int)
    requires sl.Slider?
    requires !repaired ==> JsParseInt(sl.value) == Some(v)
    ensures JsParseInt((if repaired then WriteBack(sl, v) else sl).value) == Some(v)
  {
    if repaired {
      JsParseIntRoundTrip(v);
    }
  }

  // ---------------------------------------------------------------------------
  // createBuildingUI

  /** A fresh call-control row for every floor of the range. */
  function FreshRows(lo: int, hi: int): (rows: map<int, Row>)
    ensures forall f :: f in rows <==> lo <= f <= hi
    ensures forall f :: f in rows ==> rows[f] == Row("", "1")
    decreases hi - lo
  {
    if lo > hi then map[] else FreshRows(lo + 1, hi)[lo := Row("", "1")]
  }

  /** `createBuildingUI`: the old rows go first; the range read from the sliders
      (without touching the globals) is refused unless it spans 1 to 100 floors. */
  function CreateBuildingUI(c: Client): (r: Client)
    ensures var v := ReadConfigInputs(c, false).1;
      var total := v.maxFloor - v.minFloor + 1;
      && (1 <= total <= 100 ==> r.building == Built(v.minFloor, v.maxFloor) && r.rows == FreshRows(v.minFloor, v.maxFloor))
      && (!(1 <= total <= 100) ==> r.building == InvalidRange && r.rows == map[])
    ensures r.builds == c.builds + 1
    ensures r.config == c.config && r.decision == c.decision && r.socket == c.socket && r.outbox == c.outbox
    ensures r.connectDisabled == c.connectDisabled && r.promptVisible == c.promptVisible
    ensures r.modalPresent == c.modalPresent && r.configInputsDisabled == c.configInputsDisabled
    ensures ClientValid(c) ==> ClientValid(r)
  {
    // The rows are cleared before the read; the read leaves them alone.
    var (c1, v) := ReadConfigInputs(c, false);
    var lo := v.minFloor;
    var hi := v.maxFloor;
    var total := hi - lo + 1;
    if lo > hi || total <= 0 || total > 100 then c1.(rows := map[], building := InvalidRange, builds := c.builds + 1)
    else c1.(rows := FreshRows(lo, hi), building := Built(lo, hi), builds := c.builds + 1)
  }

  // ---------------------------------------------------------------------------
  // The call controls

  /** `handleDestButtonClick`: the row remembers the destination clicked. */
  function SelectDestination(c: Client, floor: int, dest: int): (r: Client)
    ensures floor !in c.rows ==> r == c
    ensures floor in c.rows ==> r == c.(rows := c.rows[floor := c.rows[floor].(selectedDest := IntToString(dest))])
    ensures floor in c.rows ==>
      && r.rows[floor].selectedDest != ""
      && JsParseInt(r.rows[floor].selectedDest) == Some(dest)
      && r.rows[floor].num == c.rows[floor].num
    ensures ClientValid(c) ==> ClientValid(r)
  {
    JsParseIntRoundTrip(dest);
    if floor in c.rows then c.(rows := c.rows[floor := c.rows[floor].(selectedDest := IntToString(dest))]) else c
  }

  /** A click on a destination button followed by the call button: with a valid count
      the call for that destination is sent and the row is reset; a count below 1 or
      one that does not parse is refused before anything is sent. */
  lemma SelectThenCall(c: Client, floor: int, dest: int)
    requires c.socket == Open && floor in c.rows
    requires c.config.lowest <= dest <= c.config.highest && dest != floor
    ensures var n := JsParseInt(c.rows[floor].num);
      var r := CallElevator(SelectDestination(c, floor, dest), floor);
      && (n.Some? && n.value >= 1 ==>
            r == (c.(outbox := c.outbox + [CallMsg(floor, dest, n.value)], rows := c.rows[floor := Row("", "1")]), None))
      && (n.None? || n.value < 1 ==> r == (SelectDestination(c, floor, dest), Some(BadPassengers)))
  {
    var c1 := SelectDestination(c, floor, dest);
    assert c1.rows[floor].num == c.rows[floor].num;
    CallWithDestination(c1, floor, dest);
    RowsUpdateTwice(c.rows, floor, c1.rows[floor], Row("", "1"));
    var n := JsParseInt(c.rows[floor].num);
    if n.Some? && n.value >= 1 {
      var m := CallMsg(floor, dest, n.value);
      assert c1.(outbox := c1.outbox + [m], rows := c1.rows[floor := Row("", "1")])
          == c.(outbox := c.outbox + [m], rows := c.rows[floor := Row("", "1")]);
    }
  }

  lemma RowsUpdateTwice(m: map<int, Row>, k: int, x: Row, y: Row)
    ensures m[k := x][k := y] == m[k := y]
  {
  }

  /** `callElevator` on a row whose destination parses to a valid floor: it sends
      when the count is valid and otherwise refuses the count. */
  lemma CallWithDestination(c: Client, floor: int, dest: int)
    requires c.socket == Open && floor in c.rows && c.rows[floor].selectedDest != ""
    requires c.config.lowest <= dest <= c.config.highest && dest != floor
    ensures var n := JsParseInt(c.rows[floor].num);
      var r := CallElevator(c, floor);
      JsParseInt(c.rows[floor].selectedDest) == Some(dest) ==>
        && (n.Some? && n.value >= 1 ==>
              r == (c.(outbox := c.outbox + [CallMsg(floor, dest, n.value)], rows := c.rows[floor := Row("", "1")]), None))
        && (n.None? || n.value < 1 ==> r == (c, Some(BadPassengers)))
  {
    var row := c.rows[floor];
    var d, n := JsParseInt(row.selectedDest), JsParseInt(row.num);
    assert CallElevator(c, floor) == CallParsed(c, floor, false, d, n);
    if d == Some(dest) {
      CallParsedValid(c, floor, dest, n);
    }
  }

  /** The parsed checks for a valid other destination depend only on the count. */
  lemma CallParsedValid(c: Client, floor: int, dest: int, n: Option<int>)
    requires c.config.lowest <= dest <= c.config.highest && dest != floor
    ensures n.Some? && n.value >= 1 ==>
      CallParsed(c, floor, false, Some(dest), n)
        == (c.(outbox := c.outbox + [CallMsg(floor, dest, n.value)], rows := c.rows[floor := Row("", "1")]), None)
    ensures n.None? || n.value < 1 ==> CallParsed(c, floor, false, Some(dest), n) == (c, Some(BadPassengers))
  {
  }

  /** The count `adjustValue` computes from the stored one (an empty one reads as
      "1"): moved by `delta` but not below 1, or 1 when it does not parse. */
  function AdjustCount(num: string, delta: int): (v: int)
    ensures v >= 1
    ensures var prev := JsParseInt(if num == "" then "1" else num);
      && (prev.None? ==> v == 1)
      && (prev.Some? && prev.value + delta >= 1 ==> v == prev.value + delta)
      && (prev.Some? && prev.value + delta < 1 ==> v == 1)
  {
    var cur := JsParseInt(if num == "" then "1" else num);
    var newValue := if cur.None? then 1 else cur.value + delta;
    if newValue > 1 then newValue else 1
  }

  /** `adjustValue` on the count of floor `floor`: only that count changes, and it
      always holds a number of at least 1. */
  function AdjustValue(c: Client, floor: int, delta: int): (r: Client)
    ensures floor !in c.rows ==> r == c
    ensures floor in c.rows ==>
      && r == c.(rows := c.rows[floor := c.rows[floor].(num := IntToString(AdjustCount(c.rows[floor].num, delta)))])
      && JsParseInt(r.rows[floor].num) == Some(AdjustCount(c.rows[floor].num, delta))
    ensures ClientValid(c) ==> ClientValid(r)
  {
    if floor !in c.rows then c
    else
      var v := AdjustCount(c.rows[floor].num, delta);
      JsParseIntRoundTrip(v);
      c.(rows := c.rows[floor := c.rows[floor].(num := IntToString(v))])
  }

  /** Why `callElevator` refuses, in the order it checks. */
  datatype CallError =
    | NotConnected
    | ControlsMissing
    | NoDestination
    | BadDestination
    | BadPassengers
    | OutOfRange
    | SameFloor

  /** `callElevator(floor)`: the first failing check wins and nothing is sent or
      reset; otherwise exactly one call goes out and the row is reset. */
  function CallElevator(c: Client, floor: int): (r: (Client, Option<CallError>))
    ensures r.1.Some? ==> r.0 == c
    ensures r.1.None? ==>
      && c.socket == Open && floor in c.rows
      && JsParseInt(c.rows[floor].selectedDest).Some? && JsParseInt(c.rows[floor].num).Some?
      && var dest := JsParseInt(c.rows[floor].selectedDest).value;
      var num := JsParseInt(c.rows[floor].num).value;
      && r.0 == c.(outbox := c.outbox + [CallMsg(floor, dest, num)], rows := c.rows[floor := Row("", "1")])
      && c.config.lowest <= dest <= c.config.highest && dest != floor && num >= 1
    ensures c.socket != Open ==> r.1 == Some(NotConnected)
    ensures ClientValid(c) ==> ClientValid(r.0)
  {
    if c.socket != Open then (c, Some(NotConnected))
    else if floor !in c.rows then (c, Some(ControlsMissing))
    else
      var row := c.rows[floor];
      CallParsed(c, floor, row.selectedDest == "", JsParseInt(row.selectedDest), JsParseInt(row.num))
  }

  /** The checks of `callElevator` once the row's destination and count are parsed. */
  function CallParsed(c: Client, floor: int, noDest: bool, dest: Option<int>, num: Option<int>): (r: (Client, Option<CallError>))
    ensures r.1.Some? ==> r.0 == c
    ensures r.1.None? ==>
      && !noDest && dest.Some? && num.Some?
      && r.0 == c.(outbox := c.outbox + [CallMsg(floor, dest.value, num.value)], rows := c.rows[floor := Row("", "1")])
      && c.config.lowest <= dest.value <= c.config.highest && dest.value != floor && num.value >= 1
    ensures ClientValid(c) ==> ClientValid(r.0)
  {
    if noDest then (c, Some(NoDestination))
    else if dest.None? then (c, Some(BadDestination))
    else if num.None? || num.value < 1 then (c, Some(BadPassengers))
    else if dest.value < c.config.lowest || dest.value > c.config.highest then (c, Some(OutOfRange))
    else if dest.value == floor then (c, Some(SameFloor))
    else (c.(outbox := c.outbox + [CallMsg(floor, dest.value, num.value)], rows := c.rows[floor := Row("", "1")]), None)
  }

  /** `e` in front of `rest` when `fails`. */
  function FailIf(fails: bool, e: CallError, rest: seq<CallError>): seq<CallError> {
    if fails then [e] + rest else rest
  }

  /** Every check of `callElevator` that fails, each stated on its own. */
  function CallFailures(c: Client, floor: int): seq<CallError> {
    if c.socket != Open then [NotConnected]
    else if floor !in c.rows then [ControlsMissing]
    else
      var row := c.rows[floor];
      FailuresParsed(c, floor, row.selectedDest == "", JsParseInt(row.selectedDest), JsParseInt(row.num))
  }

  /** The failing checks among those on the parsed destination and count. */
  function FailuresParsed(c: Client, floor: int, noDest: bool, dest: Option<int>, num: Option<int>): seq<CallError> {
    FailIf(noDest, NoDestination,
    FailIf(dest.None?, BadDestination,
    FailIf(num.None? || num.value < 1, BadPassengers,
    FailIf(dest.Some? && (dest.value < c.config.lowest || dest.value > c.config.highest), OutOfRange,
    FailIf(dest == Some(floor), SameFloor, [])))))
  }

  /** `callElevator` reports the first failing check, and sends exactly when none fails. */
  lemma CallElevatorFirstFailure(c: Client, floor: int)
    ensures var fs := CallFailures(c, floor);
      CallElevator(c, floor).1 == if fs == [] then None else Some(fs[0])
  {
    if c.socket == Open && floor in c.rows {
      var row := c.rows[floor];
      var d, n := JsParseInt(row.selectedDest), JsParseInt(row.num);
      if row.selectedDest == "" {
        assert d == None by {
          assert TrimStart("") == "";
          assert ParseMagnitude("") == None;
        }
      }
      assert CallElevator(c, floor) == CallParsed(c, floor, row.selectedDest == "", d, n);
      assert CallFailures(c, floor) == FailuresParsed(c, floor, row.selectedDest == "", d, n);
      ParsedFirstFailure(c, floor, row.selectedDest == "", d, n);
    }
  }

  /** The parsed checks report the first parsed failure. */
  lemma ParsedFirstFailure(c: Client, floor: int, noDest: bool, dest: Option<int>, num: Option<int>)
    requires noDest ==> dest.None?
    ensures var fs := FailuresParsed(c, floor, noDest, dest, num);
      CallParsed(c, floor, noDest, dest, num).1 == if fs == [] then None else Some(fs[0])
  {
  }

  // ---------------------------------------------------------------------------
  // The client invariant

  /** What every reachable client satisfies: the start floor follows the lowest
      floor; a decision is outstanding exactly while the prompt shows and the
      connect button is disabled; a decision is only ever held with a modal. */
  predicate ClientValid(c: Client) {
    && c.config.start == c.config.lowest
    && (c.decision.Some? <==> c.connectDisabled)
    && (c.promptVisible <==> c.decision.Some?)
    && (c.decision.Some? ==> c.modalPresent)
  }

  // ---------------------------------------------------------------------------
  // Configuration drift (`updateElevatorUI`)

  /** The drift check on the four configuration fields of a state message: a field
      is taken over when it is a number, and the configuration has changed exactly
      when one of them differs; then the start floor follows the lowest floor. */
  function Drift(cfg: Config, st: StateFields): (r: (Config, bool))
    ensures r.0.lowest == st.lowest.GetOr(cfg.lowest) && r.0.highest == st.highest.GetOr(cfg.highest)
    ensures r.0.capacity == st.capacity.GetOr(cfg.capacity) && r.0.cycleTime == st.cycleTime.GetOr(cfg.cycleTime)
    ensures r.1 <==> r.0.lowest != cfg.lowest || r.0.highest != cfg.highest || r.0.capacity != cfg.capacity || r.0.cycleTime != cfg.cycleTime
    ensures r.1 ==> r.0.start == r.0.lowest
    ensures !r.1 ==> r.0 == cfg
  {
    var lowChanged := st.lowest.Some? && st.lowest.value != cfg.lowest;
    var highChanged := st.highest.Some? && st.highest.value != cfg.highest;
    var capChanged := st.capacity.Some? && st.capacity.value != cfg.capacity;
    var cycleChanged := st.cycleTime.Some? && st.cycleTime.value != cfg.cycleTime;
    var lowest := if lowChanged then st.lowest.value else cfg.lowest;
    var changed := lowChanged || highChanged || capChanged || cycleChanged;
    var start := if changed && cfg.start != lowest then lowest else cfg.start;
    (Config(lowest,
            if highChanged then st.highest.value else cfg.highest,
            if capChanged then st.capacity.value else cfg.capacity,
            start,
            if cycleChanged then st.cycleTime.value else cfg.cycleTime),
     changed)
  }

  /** The configuration part of `updateElevatorUI`: remember the state, take over
      drifted fields, and on drift set the sliders to the new values and rebuild the
      building from them, once. */
  function UpdateElevatorUI(c: Client, st: StateFields): (r: Client)
    ensures r.config == Drift(c.config, st).0 && r.lastState == Some(st)
    ensures !Drift(c.config, st).1 ==> r == c.(lastState := Some(st))
    ensures Drift(c.config, st).1 ==>
      var cfg := r.config;
      && r.builds == c.builds + 1
      && (1 <= cfg.highest - cfg.lowest + 1 <= 100 ==> r.building == Built(cfg.lowest, cfg.highest))
    ensures r.decision == c.decision && r.socket == c.socket && r.outbox == c.outbox
    ensures ClientValid(c) ==> ClientValid(r)
  {
    var (cfg, changed) := Drift(c.config, st);
    var c1 := c.(config := cfg, lastState := Some(st));
    if !changed then c1 else CreateBuildingUI(SetSliders(c1))
  }

  /** The sliders set to the globals, so that a read gives back the globals' floors. */
  function SetSliders(c: Client): (r: Client)
    ensures var v := ReadConfigInputs(r, false).1; v.minFloor == c.config.lowest && v.maxFloor == c.config.highest
    ensures r == c.(minSlider := r.minSlider, maxSlider := r.maxSlider, capSlider := r.capSlider, speedSlider := r.speedSlider)
    ensures ClientValid(c) ==> ClientValid(r)
  {
    var cfg := c.config;
    JsParseIntRoundTrip(cfg.lowest);
    JsParseIntRoundTrip(cfg.highest);
    c.(minSlider := WriteBack(c.minSlider, cfg.lowest),
       maxSlider := WriteBack(c.maxSlider, cfg.highest),
       capSlider := WriteBack(c.capSlider, cfg.capacity),
       speedSlider := if c.speedSlider.SpeedSlider? then SpeedSlider(Some(cfg.cycleTime)) else c.speedSlider)
  }

  /** The same state twice: the second one finds no drift and rebuilds nothing. */
  lemma DriftSettles(c: Client, st: StateFields)
    ensures var c1 := UpdateElevatorUI(c, st);
      var c2 := UpdateElevatorUI(c1, st);
      !Drift(c1.config, st).1 && c2.builds == c1.builds && c2.config == c1.config
  {
  }

  // ---------------------------------------------------------------------------
  // The boarding decision slot

  /** `sendBoardingDecision`: a decision goes out only on an open socket and only if
      (floor, direction, destination) names the outstanding decision; on every path
      the decision is cleared, the prompt hidden and the connect button enabled. */
  function SendBoardingDecision(c: Client, floor: int, direction: string, destination: int, n: int): (r: Client)
    ensures r.decision.None? && !r.promptVisible && !r.connectDisabled
    ensures var sent := c.socket == Open && c.decision.Some?
        && c.decision.value.floor == floor && c.decision.value.direction == direction
        && c.decision.value.destination == destination;
      && (sent ==> r.outbox == c.outbox + [BoardingDecisionMsg(floor, direction, destination, n)])
      && (!sent ==> r.outbox == c.outbox)
    ensures r == c.(decision := None, promptVisible := false, connectDisabled := false, outbox := r.outbox)
    ensures ClientValid(c) ==> ClientValid(r)
  {
    var c1 :=
      if c.socket == Open && c.decision.Some? && c.decision.value.floor == floor
         && c.decision.value.direction == direction && c.decision.value.destination == destination
      then c.(outbox := c.outbox + [BoardingDecisionMsg(floor, direction, destination, n)])
      else c;
    c1.(decision := None, promptVisible := false, connectDisabled := false)
  }

  /** `promptForBoardingDecision`, corrected: the decision is stored first, so that
      without a modal the automatic answer of 0 matches it and is sent. With a modal,
      a new request replaces any outstanding one and gates the connect button. */
  function PromptForBoardingDecision(c: Client, d: Decision): (r: Client)
    ensures c.modalPresent ==>
      r == c.(decision := Some(d), promptVisible := true, connectDisabled := true, decisionInput := IntToString(d.canBoard))
    ensures !c.modalPresent ==>
      && r.decision.None? && !r.connectDisabled
      && r.outbox == c.outbox + (if c.socket == Open then [BoardingDecisionMsg(d.floor, d.direction, d.destination, 0)] else [])
    ensures ClientValid(c) ==> ClientValid(r)
  {
    if !c.modalPresent then
      SendBoardingDecision(c.(decision := Some(d)), d.floor, d.direction, d.destination, 0)
    else
      c.(decision := Some(d), promptVisible := true, connectDisabled := true, decisionInput := IntToString(d.canBoard))
  }

  /** `promptForBoardingDecision` as written: without a modal it answers before
      storing the decision, so the correlation check in `sendBoardingDecision` fails. */
  function PromptForBoardingDecisionAsWritten(c: Client, d: Decision): (r: Client)
    ensures c.modalPresent ==> r == PromptForBoardingDecision(c, d)
  {
    if !c.modalPresent then SendBoardingDecision(c, d.floor, d.direction, d.destination, 0)
    else c.(decision := Some(d), promptVisible := true, connectDisabled := true, decisionInput := IntToString(d.canBoard))
  }

  /** Without a modal and with no decision outstanding, the automatic 0 never leaves
      the client, although the socket is open. */
  lemma AsWrittenAutoCancelSendsNothing(c: Client, d: Decision)
    requires !c.modalPresent && c.socket == Open && c.decision.None?
    ensures PromptForBoardingDecisionAsWritten(c, d).outbox == c.outbox
    ensures PromptForBoardingDecision(c, d).outbox == c.outbox + [BoardingDecisionMsg(d.floor, d.direction, d.destination, 0)]
  {
  }

  /** The confirm button: the typed number must parse and lie in [0, can_board];
      otherwise the decision stays outstanding and nothing changes. */
  function Confirm(c: Client): (r: Client)
    ensures c.decision.None? ==> r == c
    ensures c.decision.Some? ==>
      var n := JsParseInt(c.decisionInput);
      var d := c.decision.value;
      && (n.None? || n.value < 0 || n.value > d.canBoard ==> r == c)
      && (n.Some? && 0 <= n.value <= d.canBoard ==>
          && r.decision.None? && !r.connectDisabled
          && r.outbox == c.outbox + (if c.socket == Open then [BoardingDecisionMsg(d.floor, d.direction, d.destination, n.value)] else []))
    ensures ClientValid(c) ==> ClientValid(r)
  {
    if c.decision.None? then c
    else
      var d := c.decision.value;
      var n := JsParseInt(c.decisionInput);
      if n.None? || n.value < 0 || n.value > d.canBoard then c
      else SendBoardingDecision(c, d.floor, d.direction, d.destination, n.value)
  }

  /** The cancel button: answer 0 to the outstanding decision, or, with none, reset
      the disconnected look. */
  function Cancel(c: Client): (r: Client)
    ensures c.decision.Some? ==>
      var d := c.decision.value;
      r == SendBoardingDecision(c, d.floor, d.direction, d.destination, 0)
    ensures c.decision.None? ==> r == ResetUIForDisconnect(c)
    ensures r.decision.None? && !r.connectDisabled && !r.promptVisible
    ensures ClientValid(c) ==> ClientValid(r)
  {
    if c.decision.Some? then
      var d := c.decision.value;
      SendBoardingDecision(c, d.floor, d.direction, d.destination, 0)
    else ResetUIForDisconnect(c)
  }

  /** A request answered by the user: the one message that goes out carries the
      request's own floor, direction and destination and the number typed. */
  lemma PromptThenConfirm(c: Client, d: Decision, n: int)
    requires c.modalPresent && c.socket == Open && 0 <= n <= d.canBoard
    ensures var c1 := PromptForBoardingDecision(c, d).(decisionInput := IntToString(n));
      Confirm(c1).outbox == c.outbox + [BoardingDecisionMsg(d.floor, d.direction, d.destination, n)]
  {
    JsParseIntRoundTrip(n);
  }

  // ---------------------------------------------------------------------------
  // The connection

  /** `resetUIForDisconnect`, corrected: besides enabling the configuration inputs
      and dropping the decision and its prompt, it enables the connect button the
      prompt disabled. */
  function ResetUIForDisconnect(c: Client): (r: Client)
    ensures r == c.(configInputsDisabled := false, promptVisible := false, decision := None, connectDisabled := false)
    ensures ClientValid(c) ==> ClientValid(r)
  {
    c.(configInputsDisabled := false, promptVisible := false, decision := None, connectDisabled := false)
  }

  /** `resetUIForDisconnect` as written: the connect button keeps whatever state the
      prompt left it in. */
  function ResetUIForDisconnectAsWritten(c: Client): (r: Client)
    ensures r == ResetUIForDisconnect(c).(connectDisabled := c.connectDisabled)
  {
    c.(configInputsDisabled := false, promptVisible := false, decision := None)
  }

  /** `disconnectWebSocket`: only an open socket is closed. */
  function Disconnect(c: Client): (r: Client)
    ensures c.socket == Open ==> r == c.(socket := Closing)
    ensures c.socket != Open ==> r == c
    ensures ClientValid(c) ==> ClientValid(r)
  {
    if c.socket == Open then c.(socket := Closing) else c
  }

  /** `connectWebSocket`: nothing happens on an open socket; otherwise any previous
      socket is closed and a new one is created, or, when creation throws, the
      previous (closing) one stays referenced. */
  function ConnectWebSocket(c: Client, creationOk: bool): (r: Client)
    ensures c.socket == Open ==> r == c
    ensures c.socket != Open ==> r == c.(socket := r.socket) && r.socket != Open
    ensures c.socket != Open && creationOk ==> r.socket == Connecting
    ensures c.socket != Open && !creationOk ==> (r.socket == NoSocket <==> c.socket == NoSocket)
    ensures c.socket != Open && !creationOk && c.socket != NoSocket ==> r.socket == Closing
    ensures ClientValid(c) ==> ClientValid(r)
  {
    if c.socket == Open then c
    else
      var previous := if c.socket == NoSocket then NoSocket else Closing;
      if creationOk then c.(socket := Connecting) else c.(socket := previous)
  }

  /** When creating the socket throws, the client is left able to connect: the next
      click of the enabled connect button tries to connect again rather than
      disconnecting. */
  lemma FailedConnectRetries(c: Client, creationOk: bool)
    requires c.socket != Open && !c.connectDisabled
    ensures ClickConnect(ConnectWebSocket(c, false), creationOk)
         == ConnectWebSocket(ConnectWebSocket(c, false), creationOk)
  {
  }

  /** `onopen`: the inputs are locked and the sliders read into the globals; a valid
      reading is sent as the one configure message and the building rebuilt, an
      invalid one closes the socket again. */
  function OnOpen(c: Client): (r: Client)
    ensures var (c1, v) := ReadConfigInputs(c.(socket := Open, configInputsDisabled := true), true);
      && (v.valid ==>
          && r.outbox == c.outbox + [ConfigureMsg(v.minFloor, v.maxFloor, v.minFloor, v.capacity, v.cycleTime)]
          && r.config == Config(v.minFloor, v.maxFloor, v.capacity, v.minFloor, v.cycleTime)
          && r.socket == Open && r.builds == c.builds + 1)
      && (!v.valid ==> r.outbox == c.outbox && r.socket == Closing && r.config == c.config)
    ensures r.configInputsDisabled && r.decision == c.decision
    ensures ClientValid(c) ==> ClientValid(r)
  {
    var (c1, v) := ReadConfigInputs(c.(socket := Open, configInputsDisabled := true), true);
    if v.valid then
      CreateBuildingUI(c1.(outbox := c1.outbox + [ConfigureMsg(v.minFloor, v.maxFloor, v.startFloor.value, v.capacity, v.cycleTime)]))
    else Disconnect(c1)
  }

  /** `onclose` (and `onerror`, which closes and forgets the socket the same way). */
  function OnClose(c: Client): (r: Client)
    ensures r == ResetUIForDisconnect(c.(socket := NoSocket))
    ensures r.socket == NoSocket && r.decision.None? && !r.connectDisabled && !r.configInputsDisabled
    ensures ClientValid(c) ==> ClientValid(r)
  {
    ResetUIForDisconnect(c.(socket := NoSocket))
  }

  function OnCloseAsWritten(c: Client): (r: Client)
    ensures r == OnClose(c).(connectDisabled := c.connectDisabled)
  {
    ResetUIForDisconnectAsWritten(c.(socket := NoSocket))
  }

  /** The connect/disconnect button; a disabled button does not react. */
  function ClickConnect(c: Client, creationOk: bool): (r: Client)
    ensures c.connectDisabled ==> r == c
    ensures !c.connectDisabled && (c.socket == NoSocket || c.socket == Closing) ==> r == ConnectWebSocket(c, creationOk)
    ensures !c.connectDisabled && (c.socket == Open || c.socket == Connecting) ==> r == Disconnect(c)
    ensures ClientValid(c) ==> ClientValid(r)
  {
    if c.connectDisabled then c
    else if c.socket == NoSocket || c.socket == Closing then ConnectWebSocket(c, creationOk)
    else Disconnect(c)
  }

  /** A connection lost while a decision is outstanding: as written, the prompt is
      gone but the connect button stays disabled, so the client can neither answer
      nor reconnect; corrected, the next click connects again. */
  lemma AsWrittenCloseLocksConnectButton(c: Client)
    requires ClientValid(c) && c.decision.Some?
    ensures var r := OnCloseAsWritten(c);
      && r.decision.None? && !r.promptVisible && r.connectDisabled
      && !ClientValid(r)
      && ClickConnect(r, true) == r
    ensures ClientValid(OnClose(c)) && ClickConnect(OnClose(c), true).socket == Connecting
  {
  }

  // ---------------------------------------------------------------------------
  // Inbound messages and the configuration button

  /** A decoded server message: its `type` and the parts the handlers read. */
  datatype Inbound = Unparseable | Parsed(msgType: string, data: Decision, state: StateFields)

  /** `onmessage`: decision requests go to the decision slot, errors and notices
      change nothing, every other type is a state update; undecodable text is dropped. */
  function OnMessage(c: Client, m: Inbound): (r: Client)
    ensures m.Unparseable? ==> r == c
    ensures m.Parsed? && m.msgType == "decision_needed" ==> r == PromptForBoardingDecision(c, m.data)
    ensures m.Parsed? && (m.msgType == "error" || m.msgType == "info") ==> r == c
    ensures m.Parsed? && m.msgType != "decision_needed" && m.msgType != "error" && m.msgType != "info" ==>
      r == UpdateElevatorUI(c, m.state)
    ensures m.Parsed? && m.msgType != "decision_needed" ==> r.decision == c.decision && r.outbox == c.outbox
    ensures ClientValid(c) ==> ClientValid(r)
  {
    match m
    case Unparseable => c
    case Parsed(t, d, st) =>
      if t == "decision_needed" then PromptForBoardingDecision(c, d)
      else if t == "error" || t == "info" then c
      else UpdateElevatorUI(c, st)
  }

  /** The Apply Config button: while disconnected, a valid reading becomes the
      globals and the building is rebuilt; while connected nothing but the slider
      repair happens. */
  function ApplyConfig(c: Client): (r: Client)
    ensures c.configInputsDisabled ==> r == c
    ensures !c.configInputsDisabled ==>
      var (c1, v) := ReadConfigInputs(c, false);
      && (v.valid && c.socket != Open ==>
          r.config == Config(v.minFloor, v.maxFloor, v.capacity, v.minFloor, v.cycleTime) && r.builds == c.builds + 1)
      && (!v.valid || c.socket == Open ==> r == c1)
    ensures r.outbox == c.outbox && r.decision == c.decision
    ensures ClientValid(c) ==> ClientValid(r)
  {
    if c.configInputsDisabled then c
    else
      var (c1, v) := ReadConfigInputs(c, false);
      if v.valid && c.socket != Open then
        CreateBuildingUI(c1.(config := Config(v.minFloor, v.maxFloor, v.capacity, v.startFloor.value, v.cycleTime)))
      else c1
  }

  /** The page-load sequence: defaults, a read of the sliders into the globals, the
      inputs enabled and the disconnected look. */
  function PageLoad(minSlider: Slider, maxSlider: Slider, capSlider: Slider, speedSlider: SpeedSlider, modalPresent: bool): (r: Client)
    ensures ClientValid(r)
    ensures r.socket == NoSocket && r.outbox == [] && r.decision.None? && !r.configInputsDisabled
    ensures r.building == NotBuilt && r.rows == map[]
  {
    var c0 := Client(InitialConfig, minSlider, maxSlider, capSlider, speedSlider, false, NoSocket, false,
                     modalPresent, false, None, "", map[], NotBuilt, 0, None, []);
    var c1 := ReadConfigInputs(c0, true).0;
    ResetUIForDisconnect(c1.(configInputsDisabled := false))
  }

  // ---------------------------------------------------------------------------
  // The wire: what the server makes of the client's messages

  /** The JSON object `JSON.stringify` produces for an outgoing message, as the
      server's `json.loads` sees it. */
  function Encode(m: OutMsg): (r: Server.Message)
    ensures "type" in r && r["type"].JStr?
    ensures r["type"] == Server.JStr("configure") <==> m.ConfigureMsg?
    ensures r["type"] == Server.JStr("call") <==> m.CallMsg?
    ensures r["type"] == Server.JStr("boarding_decision") <==> m.BoardingDecisionMsg?
  {
    match m
    case ConfigureMsg(mn, mx, st, cap, cycle) =>
      map["type" := Server.JStr("configure"), "min_floor" := Server.JInt(mn), "max_floor" := Server.JInt(mx),
          "start_floor" := Server.JInt(st), "capacity" := Server.JInt(cap), "cycle_time" := Server.JFloat(cycle)]
    case CallMsg(f, d, n) =>
      map["type" := Server.JStr("call"), "floor" := Server.JInt(f), "destination" := Server.JInt(d),
          "num_passengers" := Server.JInt(n)]
    case BoardingDecisionMsg(f, dir, d, n) =>
      map["type" := Server.JStr("boarding_decision"), "floor" := Server.JInt(f), "direction" := Server.JStr(dir),
          "destination" := Server.JInt(d), "num_to_board" := Server.JInt(n)]
  }

  /** An integer field, when present as an integer. */
  function IntField(msg: Server.Message, key: string): Option<int> {
    if key in msg && msg[key].JInt? then Some(msg[key].i) else None
  }

  /** Reads a message back into the client's terms: the tag picks the kind and every
      field of that kind must be present with its JSON type. */
  function DecodeOut(msg: Server.Message): Option<OutMsg> {
    if "type" !in msg then None
    else if msg["type"] == Server.JStr("configure") then
      var mn := IntField(msg, "min_floor");
      var mx := IntField(msg, "max_floor");
      var st := IntField(msg, "start_floor");
      var cap := IntField(msg, "capacity");
      if mn.Some? && mx.Some? && st.Some? && cap.Some? && "cycle_time" in msg && msg["cycle_time"].JFloat? then
        Some(ConfigureMsg(mn.value, mx.value, st.value, cap.value, msg["cycle_time"].x))
      else None
    else if msg["type"] == Server.JStr("call") then
      var f := IntField(msg, "floor");
      var d := IntField(msg, "destination");
      var n := IntField(msg, "num_passengers");
      if f.Some? && d.Some? && n.Some? then Some(CallMsg(f.value, d.value, n.value)) else None
    else if msg["type"] == Server.JStr("boarding_decision") then
      var f := IntField(msg, "floor");
      var d := IntField(msg, "destination");
      var n := IntField(msg, "num_to_board");
      if f.Some? && d.Some? && n.Some? && "direction" in msg && msg["direction"].JStr? then
        Some(BoardingDecisionMsg(f.value, msg["direction"].s, d.value, n.value))
      else None
    else None
  }

  /** Every message the client sends carries all of its content: reading it back
      gives the message itself. */
  lemma EncodeRoundTrip(m: OutMsg)
    ensures DecodeOut(Encode(m)) == Some(m)
  {
  }

  /** A configure message with the start at the lowest floor, a positive capacity and
      a cycle time in [1, 3] is accepted as a first message exactly when its floors
      are in order, and then configures the server with its values. */
  lemma ConfigureMessageAccepted(m: OutMsg, s: Server.ServerState)
    requires m.ConfigureMsg? && m.startFloor == m.minFloor && m.capacity >= 1 && 1.0 <= m.cycleTime <= 3.0
    ensures var (s1, reply) := Server.HandleFirstMessage(s, Encode(m));
      && (m.minFloor <= m.maxFloor ==>
          && reply == Server.Quiet && s1.elevator.Some? && s1.cycleTime == m.cycleTime
          && var e := s1.elevator.value;
             e.lowest == m.minFloor && e.highest == m.maxFloor && e.capacity == m.capacity && e.floor == m.startFloor)
      && (m.minFloor > m.maxFloor ==> reply == Server.SendErrorAndClose("Invalid config data received."))
  {
    var msg := Encode(m);
    var d := Server.InitialDefaults;
    assert Server.Get(msg, "type", Server.JNull) == Server.JStr("configure");
    assert Server.Get(msg, "min_floor", d.minF) == Server.JInt(m.minFloor);
    assert Server.Get(msg, "max_floor", d.maxF) == Server.JInt(m.maxFloor);
    assert Server.Get(msg, "capacity", d.cap) == Server.JInt(m.capacity);
    assert Server.Get(msg, "start_floor", d.startF) == Server.JInt(m.startFloor);
    assert Server.Get(msg, "cycle_time", d.cycle) == Server.JFloat(m.cycleTime);
    var v := Server.ValidateConfigure(Server.JInt(m.minFloor), Server.JInt(m.maxFloor), Server.JInt(m.capacity),
                                      Server.JInt(m.startFloor), Server.JFloat(m.cycleTime));
    assert v.Success? <==> m.minFloor <= m.maxFloor;
  }

  /** The configure message `onopen` sends is the connection's first message; the
      server builds exactly the client's configuration from it when the floors are
      in order, and otherwise rejects it and closes. */
  lemma OnOpenConfigureAccepted(c: Client, s: Server.ServerState)
    ensures ReadConfigInputs(c.(socket := Open, configInputsDisabled := true), true).1.valid ==>
      var r := OnOpen(c);
      && |r.outbox| > 0
      && var m := Encode(r.outbox[|r.outbox| - 1]);
      var (s1, reply) := Server.HandleFirstMessage(s, m);
      && (r.config.lowest <= r.config.highest ==>
          && reply == Server.Quiet && s1.elevator.Some? && s1.cycleTime == r.config.cycleTime
          && var e := s1.elevator.value;
             e.lowest == r.config.lowest && e.highest == r.config.highest
             && e.capacity == r.config.capacity && e.floor == r.config.start)
      && (r.config.lowest > r.config.highest ==> reply == Server.SendErrorAndClose("Invalid config data received."))
  {
    var v := ReadConfigInputs(c.(socket := Open, configInputsDisabled := true), true).1;
    if v.valid {
      var r := OnOpen(c);
      var om := ConfigureMsg(v.minFloor, v.maxFloor, v.minFloor, v.capacity, v.cycleTime);
      assert r.outbox[|r.outbox| - 1] == om;
      assert r.config == Config(v.minFloor, v.maxFloor, v.capacity, v.minFloor, v.cycleTime);
      ConfigureMessageAccepted(om, s);
    }
  }

  /** A call message naming two different floors of the server's building and at
      least one passenger is registered: the floor gets the call's direction. */
  lemma CallMessageAccepted(m: OutMsg, s: Server.ServerState)
    requires m.CallMsg? && m.numPassengers >= 1 && m.floor != m.destination
    requires s.elevator.Some? && ElevatorModel.IsValidFloor(s.elevator.value, m.floor)
    requires ElevatorModel.IsValidFloor(s.elevator.value, m.destination)
    ensures var (s1, reply) := Server.HandleCall(s, Encode(m));
      && reply == Server.Quiet
      && s1.elevator == Some(ElevatorModel.AddExternalRequest(s.elevator.value, m.floor, if m.destination > m.floor then 1 else -1))
  {
    var msg := Encode(m);
    assert Server.Get(msg, "floor", Server.JNull) == Server.JInt(m.floor);
    assert Server.Get(msg, "destination", Server.JNull) == Server.JInt(m.destination);
    assert Server.Get(msg, "num_passengers", Server.JInt(1)) == Server.JInt(m.numPassengers);
  }

  /** A call the client lets through is registered by a server whose building has
      the client's floors. */
  lemma CallAcceptedByServer(c: Client, floor: int, s: Server.ServerState)
    requires s.elevator.Some? && s.elevator.value.lowest == c.config.lowest && s.elevator.value.highest == c.config.highest
    requires c.config.lowest <= floor <= c.config.highest
    ensures CallElevator(c, floor).1.None? ==>
      var r := CallElevator(c, floor).0;
      && |r.outbox| > 0
      && var m := r.outbox[|r.outbox| - 1];
      var (s1, reply) := Server.HandleCall(s, Encode(m));
      && m.CallMsg? && reply == Server.Quiet
      && s1.elevator == Some(ElevatorModel.AddExternalRequest(s.elevator.value, floor, if m.destination > floor then 1 else -1))
  {
    if CallElevator(c, floor).1.None? {
      var r := CallElevator(c, floor).0;
      var dest := JsParseInt(c.rows[floor].selectedDest).value;
      var num := JsParseInt(c.rows[floor].num).value;
      var m := CallMsg(floor, dest, num);
      assert r.outbox[|r.outbox| - 1] == m;
      CallMessageAccepted(m, s);
    }
  }

  /** A boarding decision reaching the server changes nothing there: the server
      answers its own requests itself. */
  lemma BoardingDecisionIgnoredByServer(f: int, dir: string, d: int, n: int, s: Server.ServerState)
    ensures Server.HandleMessage(s, Encode(BoardingDecisionMsg(f, dir, d, n))) == (s, Server.Quiet)
  {
  }
}
