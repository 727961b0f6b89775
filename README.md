# EV charger simulation — verified model

A Dafny model of the logic of `das1.py`. The file has two parts that share no
state. One is a set of simulated chargers that an operator watches and edits in
a table. The other is an OCPP 1.6 endpoint that answers outside charge points.
The simulated chargers never talk to that endpoint, and its handlers neither
read nor change any charger. The model covers:

- the `EVCharger` record (`charger.dfy`, module `Charger`): id, current,
  setpoint current and a two-valued status. The status rule says a charger is
  `Charging` exactly when its current is positive, and `Available` otherwise.
  The module also has the derived active power (current × 230 V), the
  status code (3 or 4) and one pass of the simulation loop;
- the operator's manual update (`charger_gui.dfy`, module `ChargerGui`). It
  finds the first charger with a given id, overwrites its setpoint and current,
  and recomputes its status;
- start-up (`startup.dfy`, module `Startup`), which builds the charger list
  with the ids of `range(n)`;
- the OCPP endpoint (`central_system.dfy`, module `CentralSystem`). The
  charge-point identity is the connection path with every leading and trailing
  `/` removed. BootNotification (section 4.2 of OCPP 1.6) and StatusNotification
  (section 4.9 of OCPP 1.6) get fixed replies, whatever the request holds.

`wrappers.dfy` holds the `Option` type used for Python's `None`.

Python integers are unbounded, and so are Dafny's `int`s, so no wrap-around is
modelled. The code does not stop a current from exceeding the setpoint and does
not reject a negative current. The model does not either: the only invariant is
the status rule.

## Model

| member | source | states |
|---|---|---|
| `Charger.EVCharger.constructor` | das1.py:15-19 | A new charger has the given id, current 0, setpoint 8 and status Available, so it satisfies the status rule. |
| `Charger.EVCharger.UpdateStatus` | das1.py:21-25 | Afterwards status is Charging exactly when current > 0. Id, current and setpoint are unchanged. On a charger that already follows the rule the status is unchanged too, so a second call has no effect. |
| `Charger.EVCharger.SimulateStep` | das1.py:30-33 | One pass of the simulation loop: a current of 0 becomes 8 and any other current is kept. Afterwards current ≠ 0 and the status rule holds. Id and setpoint are unchanged. |
| `Charger.EVCharger.ActivePower` | das1.py:38-39 | Power is a multiple of the voltage, 230 (das1.py:12), and dividing it by 230 gives the current back. It is 0 exactly when the current is 0 and positive exactly when the current is positive. Under the status rule it is positive exactly when the status is Charging. It reads the charger and changes nothing. |
| `Charger.EVCharger.StatusCode` | das1.py:41-42 | The code is always 3 or 4. It is 3 exactly when the status is Charging and 4 exactly when it is Available. Under the status rule it is 3 exactly when current > 0. |
| `ChargerGui.Ids` | das1.py:121 | The ids the search compares against: one per charger, in list order, the i-th being the i-th charger's id. |
| `ChargerGui.FirstIndex` | das1.py:121 | Gives the first-match search its meaning. The result is None exactly when the id does not occur. Otherwise it is a position holding the id with no earlier occurrence. |
| `ChargerGui.FindCharger` | das1.py:121 | The search loop returns null exactly when no charger has the id. Otherwise it returns the charger at the first position holding the id. |
| `ChargerGui.ManualUpdateCharger` | das1.py:121-125 | With a match, the first matching charger gets exactly the given setpoint and current, keeps its id and follows the status rule. Every other charger object is unchanged. With no match, no charger changes. Ids are preserved, and so is the status rule on every charger. No bound is placed on the values. |
| `Startup.Range` | das1.py:154 | The ids `range(n)` yields: n of them when n > 0 and none when n <= 0, the i-th being i. |
| `Startup.FirstIndexOfRange` | das1.py:154 | With the ids of `range(n)`, the first match for `id` is position `id` when `0 <= id < n` and there is none otherwise. |
| `Startup.CreateChargers` | das1.py:153-154 | Builds one distinct fresh charger per id of `range(n)`, with ids 0 … n-1 and an empty list when n <= 0, each idle with setpoint 8 and status Available. |
| `CentralSystem.TrimLeft` | das1.py:60 | Removes the leading `/` characters. The result is a suffix of the input that does not start with `/`, and every character cut away is a `/`. |
| `CentralSystem.TrimRight` | das1.py:60 | Removes the trailing `/` characters. The result is a prefix of the input that does not end with `/`, and every character cut away is a `/`. |
| `CentralSystem.StripSlashes` | das1.py:60 | The identity is a contiguous part of the path with no `/` at either end, and everything around it is `/`. |
| `CentralSystem.StripSlashesUnique` | das1.py:60 | That description fixes the identity: any part of the path with no `/` at its ends and only `/` around it equals `StripSlashes(path)`. |
| `CentralSystem.StripSlashesFixed` | das1.py:60 | A path is returned unchanged exactly when it neither starts nor ends with `/`. |
| `CentralSystem.StripSlashesIdempotent` | das1.py:60 | Stripping twice gives the same identity as stripping once. |
| `CentralSystem.OnBootNotification` | das1.py:46-52 | Every BootNotification is answered Accepted, with heartbeat interval 10 and server time `2023-01-01T00:00:00Z`. |
| `CentralSystem.BootNotificationIgnoresPayload` | das1.py:46-52 | Any two BootNotification requests get the same answer. |
| `CentralSystem.OnStatusNotification` | das1.py:55-57 | Every StatusNotification is answered with the empty confirmation. The confirmation type has no way to reject. |

## Left out

- The Tkinter window: the table, its periodic refresh, the entry widgets and the button (das1.py:64-113, 127, 131-133, 147-150). These are presentation only.
- Parsing the three entry fields as integers and reporting a `ValueError` (das1.py:116-119, 128-129). `ManualUpdateCharger` receives the integers already parsed.
- The websocket server, the asyncio event loop and `ChargePoint.start()` (das1.py:59-62, 135-145). These are network I/O. Only the identity extraction of `on_connect` is modelled.
- The `ocpp` library: the `ChargePoint` base class, the `@on` routing and message encoding (das1.py:5-8, 44-45). This is foreign code. Only the values the two handlers return are modelled. A request is an opaque map from field name to value, because the handlers take it as keyword arguments and never read it. Field values are shown as strings, since their types do not matter to the replies.
- The endless loop, the `time.sleep` delays and the background threads of `simulate_charging` (das1.py:27-36, 155-159). These are concurrency and timing. `SimulateStep` models one pass of the loop body as if it ran at once. In the source the test `current == 0` and the assignment `current = 8` are five seconds apart (das1.py:30-32). An operator update made in that window (das1.py:123-124) is therefore overwritten with 8. The model does not capture that interleaving, and "any other current is kept" holds only for the single step. The `except` branch is not modelled because the loop body raises nothing in the model.
- The `input()` prompt for the number of chargers and the `print` logging (das1.py:47, 56, 153). These are I/O. `CreateChargers` takes the number as a parameter.
- `CentralSystem.OnStatusNotification`: its contract cannot say more than its result type does, because the empty confirmation has only one value.
