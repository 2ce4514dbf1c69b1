# Elevator simulation — a Dafny model

This project models the core of an elevator simulation. A Python server drives one
elevator car through a building and keeps queues of waiting passenger groups. A
browser client configures the building, places calls, answers boarding decisions
and redraws itself from the state the server broadcasts.

The model has three layers, each a Dafny module of pure functions over immutable
datatypes:

- **`ElevatorModel`** (`elevator.dfy`) is the car of `elevator.py`. It covers the
  constructor checks, external requests, boarding, alighting, the display helpers
  and the one-floor `step`: stop, else move, turn or go idle.
- **`Waiting`** (`waiting.dfy`) and **`Server`** (`server.dfy`) are the bookkeeping
  of `elevator/main.py`:
  - the waiting map `floor -> {up, down} -> [group]`, with empty lists and floors
    removed;
  - boarding on arrival, including partial fits that record a pending decision,
    and settling that decision;
  - the re-request of stops for people left waiting, and the choice of direction
    after boarding from idle;
  - the simulation tick;
  - configure and re-configure validation, with its defaults;
  - the `call` and `ping` messages;
  - the broadcast snapshot.
- **`ClientModel`** (`client.dfy`) is `static/script.js`, reduced to its state. That
  state is the configuration globals, the slider values, the per-floor call
  controls, the single boarding-decision slot, the socket, the buttons the client
  disables, and the log of messages it sends. Every event handler is a function
  from one client state to the next. `Encode` gives the JSON the server receives,
  so lemmas can connect what the client sends to what the server does with it.

Supporting modules:

- `Wrappers`: `Option` and `Result`.
- `Text`: decimal rendering, and JavaScript `parseInt` on strings (leading ASCII
  whitespace, a sign, a `0x` prefix, the longest digit prefix).
- `Collections`: sequence and set helpers.

Integers are unbounded. The source's integers never wrap: Python integers are
unbounded, and the client only uses small integral JavaScript numbers.

Where the code and its prose documentation differ, the model follows the code:

- Tearing down the connection does not answer an outstanding decision with 0.
  `resetUIForDisconnect` only clears the decision.
- The start floor that `readConfigInputs` reports is the parsed minimum floor.
  When that slider does not parse, the start floor is missing (NaN), even though
  the minimum floor falls back to 0.
- The server never sends `decision_needed` on its own. Its decision-request
  broadcast is never called. So the pending-decision path on the server is only
  reached through its own state, and on the client only through messages.
- The configure check "min > max" can never fire, because it comes after a check
  that already requires min ≤ start ≤ max (`ValidateConfigure` proves
  `r != Failure(BadFloorOrder)`).

## Model

| member | source | states |
|---|---|---|
| ElevatorModel.New | elevator.py:22-43 | construction succeeds iff lowest ≤ highest, capacity ≥ 1 and the start lies in range; each failure is the first check that fails (floor order, then capacity, then start floor); a new car is valid, idle, empty and has no stops |
| ElevatorModel.DisplayFloor | elevator.py:46-51 | the label is "G" exactly for floor 0; any other label parses back to its floor |
| Text.IntToStringRoundTrip | elevator.py:46-51 | the decimal text `str` gives for any integer reads back as that integer |
| Text.IntToStringInjective | elevator.py:46-51 | two different integers never render as the same text |
| ElevatorModel.AddExternalRequest | elevator.py:62-80 | an invalid floor or direction changes nothing; otherwise the floor gains exactly that call direction, other floors keep theirs, an idle car takes the call's direction, a moving one keeps its own, and validity is kept |
| ElevatorModel.BoardPassenger | elevator.py:83-105 | boarding succeeds iff the destination is a valid other floor and there is room; then the destination is appended and becomes a stop, and nothing else changes |
| ElevatorModel.BoardMany | elevator/main.py:107-114 | boarding n people for one destination boards min(n, free space) of them, or none for an invalid destination, each adding that destination |
| ElevatorModel.Alight | elevator.py:108-113 | exactly the passengers for the current floor leave; the others keep their order and counts |
| ElevatorModel.SortedStopsDisplay | elevator.py:115-121 | "None" iff there are no stops; otherwise one label per stop floor, in increasing floor order, and a floor has a label iff it is a stop |
| ElevatorModel.PassengerDestSummary | elevator.py:123-135 | the summary is "Empty" iff the car carries nobody; otherwise it is the rendered parts of SummaryParts (count, arrow, floor label) joined by ", " |
| ElevatorModel.SummaryParts | elevator.py:123-135 | one part per distinct destination, in increasing floor order, each with a positive count; the counts add up to the load |
| ElevatorModel.ShouldStop | elevator.py:165-213 | the car stops for any passenger's floor; a pickup stop needs room and a request at the floor; a turnaround pickup happens only when nothing is further ahead; an idle or same-direction pickup with room always stops, and so does a turnaround pickup with room when nothing lies further ahead |
| ElevatorModel.Move | elevator.py:229-330 | a car moving up (down) goes one floor further whenever a target lies ahead and the building continues; otherwise it stays on its floor and turns when a target lies behind; with nothing behind it goes idle when there are no targets or it carries someone, and is left as it was otherwise; an idle car turns toward a target above, else below, else stays idle; a move never leaves the building and a new direction always points at a target |
| ElevatorModel.MoveKeepsValid | elevator.py:229-330 | moving keeps the car valid |
| ElevatorModel.Step | elevator.py:157-333 | the car stops exactly when ShouldStop holds, and never both stops and moves; the step reports an action iff it stopped or moved; an idle car with no targets does nothing; the configuration and validity are kept |
| ElevatorModel.StepStops | elevator.py:214-227 | a step that stops stays on its floor with its direction, lets off exactly that floor's passengers, and clears only that floor's request |
| ElevatorModel.StepMoves | elevator.py:229-333 | a step that does not stop keeps the passengers and requests and moves at most one floor; a move goes one floor in the current direction toward a target, and a new direction points at a target |
| ElevatorModel.StopHere | elevator.py:214-227 | a stop keeps the floor, direction and configuration, lets exactly this floor's passengers off (the others keep their order and counts), clears only this floor's request and never adds load |
| ElevatorModel.StopHereKeepsValid | elevator.py:214-227 | stopping keeps the car valid |
| Waiting.Store | elevator/main.py:89-96 | the list at (floor, direction) becomes the given one, an empty list removes the key and an empty floor, all other lists are unchanged, and the no-empty invariant is kept |
| Waiting.StorePreservesWellFormed | elevator/main.py:89-96 | storing a well-formed list keeps the whole waiting map well formed |
| Waiting.ReduceFirst | elevator/main.py:117-134 | only the first group matching (destination, count) shrinks by the number boarded, and it is removed when nobody is left |
| Waiting.ReduceFirstSum | elevator/main.py:117-134 | reducing a matching group lowers the number waiting by exactly the number boarded |
| Waiting.ReduceFirstOk | elevator/main.py:117-134 | reducing a group keeps every group of the list well formed |
| Server.ScanGroupsFacts | elevator/main.py:55-88 | scanning a queue conserves waiting plus on-board people, keeps the car valid, boards iff the load grew, and records at most one pending decision, for this floor and direction; a full car keeps every group in order; a queue that fits boards every group whole, in order, and records nothing |
| Server.ScanGroupsFull | elevator/main.py:65-69 | with the car full, every group of the queue is kept, in order, and nothing else changes |
| Server.ScanGroupsAllFit | elevator/main.py:65-81 | when all the people of the queue fit, each group boards whole in queue order, none is kept and no decision is recorded |
| Server.ScanGroupFacts | elevator/main.py:63-88 | one group is either boarded whole or kept, and nobody is lost; the car stays valid at the floor and never loses load; the decision slot is left alone or holds a partial fit for a kept group of this floor and direction, and once it holds a record for this scan it still holds one after later groups, though a later partial fit replaces it; with no room the group is kept and nothing else changes, a group that fits boards whole with its destination appended once per person, and a partial fit records (floor, direction, destination, size, room) with the decision preset to the room |
| Server.ScanGroupFits | elevator/main.py:70-81 | a group that fits boards whole, with its destination appended once per person, and leaves the kept list, the decision and the car's configuration alone |
| Server.ScanGroupRules | elevator/main.py:65-88 | the three rules for one group: kept when there is no room, boarded whole when it fits, kept with a decision for all the room otherwise |
| Server.ScanPendingFor | elevator/main.py:55-88 | a scan leaves the decision slot alone or records one for its own floor and direction |
| Server.AttemptBoardDirection | elevator/main.py:49-97 | boarding at (floor, direction) touches no other queue; any decision it records is for this floor and direction |
| Server.AttemptBoardDirectionFacts | elevator/main.py:49-97 | boarding in one direction conserves waiting plus load, boards iff the load grew, keeps the configuration, floor and direction, and keeps the state consistent; a full car changes nothing and boards nobody; when everyone waiting fits, the queue is emptied, each person's destination is appended in queue order, no decision is recorded, and someone boards iff someone was waiting |
| Server.AttemptBoardDirectionAsWritten | elevator/main.py:89-96 | without a recorded decision it agrees with the corrected scan; with one, the queue keeps its old list while the car carries whoever boarded |
| Server.AsWrittenCountsBoardedTwice | elevator/main.py:89-96 | with capacity 3 and the queue [4 for 5, 1 for 6], the as-written rewrite guard leaves the boarded person queued, so waiting plus load grows by one |
| Server.ClampDecision | elevator/main.py:107 | the number boarded never exceeds the decision or the room, equals the decision when that is in range and the room when the decision exceeds it, and is 0 exactly when either is not positive |
| Server.ProcessBoardingDecision | elevator/main.py:102-138 | settling a decision clears it, boards at most the clamped decision for its destination, shrinks only its group in its queue and no other, and reports whether anyone boarded |
| Server.ProcessBoardingDecisionCount | elevator/main.py:107-116 | a settled decision boards min(clamped decision, room) people when its destination is a valid other floor, and nobody otherwise |
| Server.ProcessBoardingDecisionFacts | elevator/main.py:102-138 | settling a decision conserves waiting plus load at its floor and direction, and restores the between-handlers invariant |
| Server.TryBoarding | elevator/main.py:147-161 | one attempt leaves no decision pending, keeps the car and the cycle time, and touches no other queue |
| Server.TryBoardingFacts | elevator/main.py:147-161 | one boarding attempt, with any decision it raises settled at once, conserves people and keeps the invariant |
| Server.TryBoardingConserves | elevator/main.py:147-161 | one boarding attempt conserves the people at the floor across both directions, keeps the car at the floor with its direction, and boards iff the load grew |
| Server.BoardingAttempts | elevator/main.py:162-176 | the attempts keep the car and the cycle time, settle every decision they raise, and touch no other floor's queues |
| Server.BoardingAttemptsFacts | elevator/main.py:162-176 | the attempts in the order the arrival direction picks (the direction of travel first, the other only with room and nothing beyond) conserve the people at the floor, board iff the load grew, and keep the invariant |
| Server.ReRequest | elevator/main.py:177-186 | people still waiting re-request their direction's stop, and no queue changes |
| Server.ReRequestFacts | elevator/main.py:177-186 | after the re-request the queues are unchanged and valid, a non-zero direction is kept, and a floor with people waiting up (else down) has that stop requested |
| Server.HeadForDestinations | elevator/main.py:187-193 | after boarding from idle the car heads up if any destination is above, else down if any is below, else stays as it was |
| Server.HeadForDestinationsFacts | elevator/main.py:187-193 | choosing the direction keeps the invariant, the people at the floor, the stops and the destinations |
| Server.HandleBoarding | elevator/main.py:140-195 | the boarding phase keeps the car and the cycle time, settles every decision, and touches no other floor's queues |
| Server.HandleBoardingFacts | elevator/main.py:140-195 | the boarding phase conserves the people at the floor, keeps the invariant, boards iff the load grew, re-requests the stops of remaining queues, follows the direction rule from idle, and keeps a non-zero direction |
| Server.SimulationTick | elevator/main.py:232-239 | without a car a tick does nothing; without a stop it is exactly the car's step |
| Server.SimulationTickFacts | elevator/main.py:232-239 | a tick keeps the invariant, the configuration and the cycle time, leaves the car on the floor its step reached, changes queues only at the floor where the car stopped, and without a stop leaves the waiting map untouched |
| Server.IntegralCycleTimeAlike | elevator/main.py:307 | the configure check gives the same result for an integral cycle time sent as an int or as a float |
| Server.ValidateConfigure | elevator/main.py:303-309 | a configuration is accepted iff all values are integers (a bool counts), the cycle time is a number in [1, 10], the capacity is at least 1 and min ≤ start ≤ max; an accepted one always builds a car; the third check never fires |
| Server.ReconfigDefaults | elevator/main.py:381-406 | a re-configure defaults the building to the current car and the start floor to 0 |
| Server.EmptyFirstConfigureUsesDefaults | elevator/main.py:302-304 | a first configure that names no field builds the default building with the default cycle time |
| Server.EmptyReconfigureKeepsBuilding | elevator/main.py:386-390 | a re-configure that names no field rebuilds the same floors and capacity with the car at floor 0 |
| Server.Configure | elevator/main.py:290-336 | a valid configuration gives a fresh idle, empty car with those values and an empty waiting map; an invalid one changes nothing and is answered with the first-message error and a close, or the re-config error |
| Server.HandleCall | elevator/main.py:362-373 | a call with two different valid floors and at least one passenger is appended to the queue for its direction, and the floor gets that direction's stop; anything else changes nothing and is answered "Invalid call data received." |
| Server.HandleCallValid | elevator/main.py:362-373 | a registered call keeps the waiting map well formed |
| Server.HandlePing | elevator/main.py:375-380 | a ping with a valid floor and direction only adds that external request |
| Server.HandleFirstMessage | elevator/main.py:290-336 | the first message must be a configure, otherwise the connection is closed; a silent reply leaves a valid state |
| Server.HandleMessage | elevator/main.py:351-406 | later messages never close the connection; boarding decisions and unknown types change nothing |
| Server.HandleMessageValid | elevator/main.py:351-406 | every later message keeps the server invariant |
| Server.WaitingCopy | elevator/main.py:199-206 | the snapshot's waiting map has the same lists, and exactly the floors with someone waiting |
| Server.WaitingCopyIdentity | elevator/main.py:199-206 | copying a map without empty lists gives the same map back |
| Server.GetCurrentState | elevator/main.py:199-206 | without a car the snapshot carries the defaults and "N/A (Not Initialized)"; with one it reports the car's configuration, position and load, its destination summary and stop display, the same waiting lists and the cycle time |
| ClientModel.DisplayFloor | static/script.js:102-109 | "?" stays "?"; 0, "G" and "g" are "G"; a number is shown so that it parses back; a string is "?" iff parseInt fails, else a label that parses to the same number |
| ClientModel.DisplayFloorAgreesWithServer | static/script.js:102-109 | the client labels every floor number exactly as the server's display does |
| ClientModel.ReadConfigInputs | static/script.js:119-164 | a missing slider reads as the current global; a NaN value (or an out-of-range capacity or speed) falls back to 0, 5, 8 or 2.0 and its slider is repaired; the reading is valid iff every value parses and capacity and speed are in range; the start floor is the parsed minimum; the globals change iff both the flag and validity hold |
| ClientModel.ReadConfigInputsSettles | static/script.js:119-164 | once the sliders exist, a second read is valid and returns the first read's values |
| ClientModel.IntSliderSettles | static/script.js:119-132 | a slider that parsed as v, or was repaired to v, parses as v the next time |
| Text.JsParseIntRoundTrip | static/script.js:130-132 | `parseInt` of the text of any integer the client writes into a slider is that integer |
| ClientModel.CreateBuildingUI | static/script.js:197-220 | a range of 1 to 100 floors is built with a fresh row per floor, any other range gives no rows; the globals, socket, decision and outbox are untouched |
| ClientModel.SelectDestination | static/script.js:322-339 | clicking a destination changes only that floor's selected destination, which then parses back to the floor clicked while the count is kept |
| ClientModel.SelectThenCall | static/script.js:322-339 | a destination click followed by the call button sends exactly the call for that destination and resets the row when the count is at least 1, and refuses the count otherwise |
| ClientModel.CallWithDestination | static/script.js:679-749 | on an open socket, a row whose destination parses to a valid other floor is sent with its count, or refused for the count |
| ClientModel.AdjustCount | static/script.js:477-508 | the adjusted count is at least 1, is the old count plus delta when that is at least 1, and is 1 when the old count does not parse |
| ClientModel.AdjustValue | static/script.js:477-508 | only that floor's count changes, and it stores the adjusted count so that it parses back |
| ClientModel.CallElevator | static/script.js:679-749 | a refused call changes nothing; an accepted one needs an open socket and a parsed destination in range, different from the floor, with at least one passenger; it sends exactly that call and resets the row |
| ClientModel.CallParsed | static/script.js:713-749 | once the row is parsed, a refusal changes nothing, and an accepted call has a destination in range other than the floor and a count of at least 1, sends exactly that call and resets the row |
| ClientModel.CallElevatorFirstFailure | static/script.js:679-749 | the reason reported is the first failing check of an independent list of all checks, and a call is sent iff none fails |
| ClientModel.Drift | static/script.js:347-357 | each numeric field of a state message is taken over; the configuration changed iff one differs; on a change the start follows the lowest floor, otherwise nothing changes |
| ClientModel.UpdateElevatorUI | static/script.js:347-391 | a state message is remembered; without drift nothing else changes; with drift the building is rebuilt once, for the new range |
| ClientModel.SetSliders | static/script.js:372-383 | after drift the sliders hold the globals, so the rebuild reads the globals' floors; nothing but the sliders changes |
| ClientModel.DriftSettles | static/script.js:347-391 | the same state applied twice causes no second rebuild |
| ClientModel.SendBoardingDecision | static/script.js:793-832 | a decision is sent only on an open socket and only if it names the outstanding request; on every path the decision is cleared, the prompt hidden and the connect button enabled |
| ClientModel.PromptForBoardingDecision | static/script.js:759-783 | with a modal the request is stored and shown, with the input preset to can_board and the connect button disabled; without one, exactly one 0 decision is sent on an open socket |
| ClientModel.PromptForBoardingDecisionAsWritten | static/script.js:759-783 | with a modal it agrees with the corrected prompt |
| ClientModel.AsWrittenAutoCancelSendsNothing | static/script.js:759-767 | without a modal, with no request outstanding and the socket open, the as-written automatic 0 is never sent; the corrected one is |
| ClientModel.Confirm | static/script.js:835-850 | an input outside [0, can_board] or one that does not parse keeps the prompt and changes nothing; a valid one sends exactly that number for the outstanding request |
| ClientModel.Cancel | static/script.js:852-863 | cancel answers 0 to the outstanding request or, with none, applies the corrected reset; either way the prompt is gone and the connect button enabled |
| ClientModel.PromptThenConfirm | static/script.js:759-850 | a request answered with n sends exactly one decision with the request's floor, direction and destination and n |
| ClientModel.ResetUIForDisconnect | static/script.js:650-670 | the reset enables the inputs, hides the prompt, drops the decision and enables the connect button |
| ClientModel.ResetUIForDisconnectAsWritten | static/script.js:650-670 | as written, the reset agrees with the corrected one except that the connect button keeps its state |
| ClientModel.Disconnect | static/script.js:637-645 | only an open socket is closed |
| ClientModel.ConnectWebSocket | static/script.js:519-548 | an open socket is kept; otherwise the result is never open, is connecting when creation succeeds, and when it fails is the previous socket, now closing, or none if there was none |
| ClientModel.FailedConnectRetries | static/script.js:527-543 | after a failed creation the next click of the connect button connects again rather than disconnecting |
| ClientModel.OnOpen | static/script.js:550-583 | on open the inputs are locked; a valid reading sends one configure message with the start at the lowest floor and becomes the globals; an invalid one sends nothing and closes |
| ClientModel.OnClose | static/script.js:611-631 | a closed or failed socket is forgotten and the disconnected state restored, with no decision outstanding |
| ClientModel.OnCloseAsWritten | static/script.js:611-631 | as written, a close agrees with the corrected one except that the connect button keeps its state |
| ClientModel.ClickConnect | static/script.js:953-961 | a disabled button does nothing; otherwise it connects when there is no socket or it is closing, and disconnects otherwise |
| ClientModel.AsWrittenCloseLocksConnectButton | static/script.js:650-670 | a connection lost while a request is outstanding leaves the as-written client with no request but a disabled connect button, so a click does nothing; the corrected client can reconnect |
| ClientModel.OnMessage | static/script.js:585-609 | decision requests go to the prompt, errors and notices change nothing, any other type is a state update, and undecodable text is dropped |
| ClientModel.ApplyConfig | static/script.js:917-949 | while the inputs are locked nothing happens; a valid reading while disconnected becomes the globals and rebuilds; otherwise only the slider repair happens |
| ClientModel.PageLoad | static/script.js:905-966 | the page starts disconnected, with nothing sent, no decision, and the client invariant holding |
| ClientModel.Encode | static/script.js:567-576 | each message carries its type tag, and the tag tells the three kinds apart |
| ClientModel.EncodeRoundTrip | static/script.js:733-740 | reading a sent message back gives the message itself, so no field is lost or renamed |
| ClientModel.ConfigureMessageAccepted | elevator/main.py:290-336 | a configure message of the client's form is accepted as a first message iff its floors are in order, and then configures exactly its values |
| ClientModel.OnOpenConfigureAccepted | static/script.js:563-576 | the configure sent on open is accepted iff min ≤ max, and the server's car then has the client's configuration |
| ClientModel.CallAcceptedByServer | static/script.js:679-749 | a call the client sends is registered by a server with the same floors, with the stop for its direction |
| ClientModel.CallMessageAccepted | elevator/main.py:362-373 | a call message naming two different floors of the building and at least one passenger is registered silently, and its floor is requested in the call's direction |
| ClientModel.BoardingDecisionIgnoredByServer | elevator/main.py:351-406 | a boarding decision reaching the server changes nothing there |

`ClientValid` is the client invariant. It says:

- the start floor is the lowest floor;
- a decision is outstanding exactly while the prompt shows and the connect button
  is disabled;
- a decision is only held when a modal exists.

Every client handler that returns a client state carries
`ClientValid(c) ==> ClientValid(r)`, except the three as-written variants of the
findings below.
`ServerValid` says that:

- the waiting map is well formed: every group has at least one person, and a
  destination in range and on the queue's side of its floor;
- no decision is pending between handlers.

The server's boarding lemmas prove that it is kept.

## Left out

- DOM rendering, styling, alerts, status text, the running-configuration panel,
  the car animation and the theme toggle are left out. They do not affect the
  state modelled.
- The slider listeners and the clamping of slider values to their HTML ranges are
  left out, because the ranges live in the page markup, which is not part of this
  model.
- `toFixed` and `parseFloat` are left out. The speed slider holds an already
  parsed `Option<real>`, and its written-back text is not modelled.
- JSON parsing and serialisation are left out. Inbound messages arrive decoded as
  `Inbound`, and `Encode` stands in for `JSON.stringify` plus `json.loads`.
  `Encode` always sends the cycle time as a float, while JSON would deliver an
  integral value such as 2 as a Python int. The configure check accepts int and
  float alike (elevator/main.py:307), so the result is the same
  (`Server.IntegralCycleTimeAlike`).
- Non-integral JavaScript numbers in floor fields are left out: `FloorArg.NumArg`
  holds an integer.
- Unicode whitespace in `parseInt` is left out; only ASCII whitespace is skipped.
- Timing, the asyncio tasks, the locks, the 45-second configure timeout, the
  decision event and its wait are left out. Each handler is an atomic step. The
  pending decision is settled within the same boarding step (`TryBoarding`), with
  the decision value taken from the state.
- The server's broadcasts and its client set are left out (I/O). The snapshot
  itself is modelled.
- Exceptions inside handlers are left out, for example a `decision_needed`
  without `data`. They are caught and logged by the source.
- The events of superseded sockets are left out: `onclose` of an old socket that
  closes after `onerror` has dropped it, and the handlers `connectWebSocket`
  detaches.
- `createBuildingUI` assumes its containers exist; the missing-container early
  return is left out.
- `status()` and the logging in `elevator.py` are left out, because they only
  print.
- Server.SimulationTick: the source's sleep between ticks and its "action taken"
  logging are not modelled.
- ClientModel.ConnectWebSocket: the socket URL is not modelled. Whether creating
  the socket throws is a parameter.
- Server.PyInt: a bool passes the source's integer checks and is modelled as the
  integer 1 or 0. Python keeps it a bool, so a floor given as `true` would be displayed
  as "True" (elevator.py:46-51; `false` equals 0 and shows "G"), sent back as a
  JSON boolean, and make the stop display raise on `int("True")`
  (elevator.py:115-121). Those consequences
  are not modelled.

## Findings

| source | as written | input that shows it | evidently intended | confidence | as-written member | corrected member |
|---|---|---|---|---|---|---|
| elevator/main.py:89-96 | the queue at (floor, direction) is rewritten only when no decision was recorded during the scan | capacity 3, empty car at floor 0, queue up [4 for 5, 1 for 6]: the first group records a partial fit and the second boards, but the old list is kept, so the boarded person is also still waiting | groups that boarded in full leave the queue whether or not a partial fit was recorded | not executed | Server.AttemptBoardDirectionAsWritten, Server.AsWrittenCountsBoardedTwice | Server.AttemptBoardDirection, Server.AttemptBoardDirectionFacts, Server.TryBoarding, Server.TryBoardingFacts, Server.TryBoardingConserves, Server.BoardingAttempts, Server.BoardingAttemptsFacts, Server.HandleBoarding, Server.HandleBoardingFacts, Server.SimulationTick, Server.SimulationTickFacts |
| static/script.js:650-670 | `resetUIForDisconnect` never re-enables the connect button, though the cancel handler's comment (script.js:859-860) relies on it doing so | a prompt is shown (the button is disabled), then the socket closes: the prompt is gone, there is no decision, and the connect button stays disabled, so the client cannot reconnect | the reset also enables the connect button | not executed | ClientModel.ResetUIForDisconnectAsWritten, ClientModel.AsWrittenCloseLocksConnectButton | ClientModel.ResetUIForDisconnect, ClientModel.OnClose, ClientModel.Cancel |
| static/script.js:761-766 | without the modal, the automatic 0 decision is sent before the request is stored, so the correlation check in `sendBoardingDecision` rejects it | the socket is open and no decision is outstanding; a `decision_needed` arrives on a page without the decision modal: nothing is sent | the automatic 0 answers this request, unblocking the server | not executed | ClientModel.PromptForBoardingDecisionAsWritten, ClientModel.AsWrittenAutoCancelSendsNothing | ClientModel.PromptForBoardingDecision, ClientModel.PromptThenConfirm, ClientModel.OnMessage |
