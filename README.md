# gulaschdisplay-client: a verified model of the configuration agent

The agent runs on a display box. At startup, and then every five seconds, it
asks the control plane at `https://display.gulas.ch/control/<MAC>/config` for
the desired-state document of this device. When the document differs from
the last one it applied, or when the tick is forced, it reconfigures the sway/i3
window manager:

- kill every browser;
- for each display rule, in list order, send the rotation, an optional video
  mode, the workspace binding and switch, the cursor hiding and the window
  assignment;
- finally, when the rule has a URL, launch a kiosk browser on that output.

The model has five modules, one file each, plus `Wrappers` (an `Option` type):

- `Decimal`. Python's `str()` of an integer and the slice `s[:k]`, which
  together produce the refresh token `str(refresh)[:1]`. The refresh rate is
  cut to its first character exactly as the code does: 60 Hz is sent as
  `@6Hz`. The lemmas prove what this loses.
- `Endpoints`. `str.capitalize` on ASCII text, and the device-keyed control
  URLs of `register`, `update_displays` and `pull_config`.
- `Commands`. The configuration document as data:
  - a `Config` holds a list of `DisplayRule`s, each with an optional `Mode`;
  - the commands one rule produces are kept as a `Command` datatype, so
    their kind, order and target can be stated;
  - `Render` gives the exact text sent over the IPC connection.
- `Configurator`. The plan of one `configure` call: a single `KillBrowser`,
  then each rule's block of IPC commands. The class
  `WindowManager` records the side effects performed so far. Its `Configure`
  method carries out the plan step by step. The IPC connection may be lost
  after any number of steps (`lostAt`). `Some(0)` means that connecting
  fails, and then not even the browsers are killed, because the code connects
  before it runs `killall`.
- `Synchronizer`. `pull_config` and the global `CURR_CONF`:
  - `Step` is the pure transition of one tick: `Run` and `Outcomes` fold it
    over a sequence of ticks;
  - the class `Sync` holds `lastApplied` and a `WindowManager`;
  - its `Tick` method takes the fetch result as an input, compares, calls
    `Configure` and records the document, and is proved to follow `Step`.

Behaviour of the code worth knowing:

- **Scratch directory on retry.** A retried apply does not reset the
  browser scratch directory, because `configure` never calls
  `prepare_filesystem`.
- **Retrying a failed apply.** A failed apply is retried on the next tick
  only when the fetched document is not already the recorded one. So when
  a forced re-apply of the recorded document fails, it is not retried
  (`FailedApplyRetried`). This is true of `pull_config` as written, but it
  never arises in the running program: the only forced call
  (main.py:106) happens at startup while `CURR_CONF` is still `None`
  (main.py:12), and the periodic calls (main.py:107) are unforced.
- **An exception in the startup tick.** The startup tick is awaited outside
  the exception-swallowing loop. An exception there ends startup before the
  periodic loop is armed.
- **The output check.** `configure` tests whether each rule's name is not
  in the reply of `get_outputs` (main.py:54). That reply holds output
  objects, not names, so the test always holds, and its branch does nothing.

## Model

| member | source | states |
|---|---|---|
| Decimal.NatToDecimal | gulaschdisplay-client/main.py:63 | `str(n)` of a non-negative integer is a non-empty string of digits whose first digit is '0' exactly when n is 0 |
| Decimal.IntToDecimal | gulaschdisplay-client/main.py:63 | `str(i)` of any integer is non-empty, starts with `-` exactly when i is negative, and is otherwise made of digits; after the sign of a negative number come at least one digit and only digits |
| Decimal.IntToDecimalValue | gulaschdisplay-client/main.py:63 | the digits of `str(i)` read back as i for i >= 0, and as -i after the sign for i < 0 |
| Decimal.DecimalRoundTrip | gulaschdisplay-client/main.py:63 | reading the digits `str(n)` writes gives back n |
| Decimal.DecimalRoundTripBack | gulaschdisplay-client/main.py:63 | every digit string without a superfluous leading zero is `str()` of its value, so `str()` is a bijection onto those strings |
| Decimal.LeadingDigit | gulaschdisplay-client/main.py:63 | the most significant digit is below 10 and is 0 only for 0 |
| Decimal.FirstCharIsLeadingDigit | gulaschdisplay-client/main.py:63 | the first character of `str(n)` is the most significant digit of n |
| Decimal.SlicePrefix | gulaschdisplay-client/main.py:63 | `s[:k]` has length min(k, len(s)) and is a prefix of s |
| Endpoints.CapitalizeShape | gulaschdisplay-client/main.py:92 | `capitalize` keeps the length and the letters up to case, leaves the first character not lower case and every later one not upper case |
| Endpoints.Capitalize | gulaschdisplay-client/main.py:92 | the device identifier `gma().capitalize()` has the MAC's length and its first character is not a lower-case letter |
| Endpoints.CapitalizeIgnoresCase | gulaschdisplay-client/main.py:92 | two MAC strings give the same device identifier exactly when they are equal ignoring ASCII case |
| Endpoints.CapitalizeIdempotent | gulaschdisplay-client/main.py:92 | capitalizing a device identifier again changes nothing |
| Endpoints.CapitalizeExample | gulaschdisplay-client/main.py:92 | `"b8:EB"` becomes `"B8:eb"` |
| Endpoints.ControlUrl | gulaschdisplay-client/main.py:25 | every control URL starts with `https://display.gulas.ch/control/` and ends with `/` followed by the endpoint's name |
| Endpoints.ControlUrlInjective | gulaschdisplay-client/main.py:92 | two control URLs are equal exactly when they name the same endpoint (`register`, `displays`, `config`) for the same capitalized MAC |
| Commands.RuleCommandsShape | gulaschdisplay-client/main.py:58-84 | one rule yields transform, optional mode, bind, switch, hide_cursor, assign and optional exec, in strictly that order. The mode command is present exactly when `mode` is set and the exec command exactly when `url` is non-null and non-empty. The cursor command appears once |
| Commands.RuleCommandsTargets | gulaschdisplay-client/main.py:58-84 | every command except the cursor command targets the rule's own output, and the workspace bind names the rule's output both as the workspace and as the output |
| Commands.RuleCommands | gulaschdisplay-client/main.py:58-84 | one rule yields five commands, plus one when `mode` is set and one when `url` is non-null and non-empty |
| Commands.RenderStartsWithKeyword | gulaschdisplay-client/main.py:58-83 | every command text `Render` produces starts with the command word of its kind: `output `, `workspace `, `seat `, `assign ` or `exec ` |
| Commands.RefreshToken | gulaschdisplay-client/main.py:63 | `str(refresh)[:1]` is one character, the first character of `str(refresh)` |
| Commands.ModeToken | gulaschdisplay-client/main.py:63 | `<width>x<height>@<r>Hz` is five characters longer than the digits of width and height, and its refresh position holds the first character of `str(refresh)` |
| Commands.RefreshTokenIsLeadingDigit | gulaschdisplay-client/main.py:63 | the refresh token `str(refresh)[:1]` is one character: the leading digit of a non-negative rate, "-" for a negative one |
| Commands.ModeCommandSeesOnlyLeadingDigit | gulaschdisplay-client/main.py:62-64 | two mode commands for non-negative refresh rates are identical exactly when the rates have the same leading digit |
| Commands.ModeTokenExample | gulaschdisplay-client/main.py:63 | width 1920, height 1080, refresh 60 gives the token `1920x1080@6Hz` |
| Commands.LaunchCommandShape | gulaschdisplay-client/main.py:80-83 | the exec command contains `--user-data-dir=` followed by the output's own directory under `/tmp/chromium_userdata`, and ends with ` --kiosk <url>` |
| Commands.ScenarioCommands | gulaschdisplay-client/main.py:58-84 | a rule with a URL and no mode yields transform, bind, switch, hide_cursor, assign, exec (no mode command) |
| Commands.ScenarioScriptRenders | gulaschdisplay-client/main.py:58-84 | the script of that rule is the rendered text of those six commands |
| Commands.ScenarioScript | gulaschdisplay-client/main.py:58 | the first command text of that rule is `output HDMI-1 transform normal` |
| Commands.ScenarioWorkspaceTexts | gulaschdisplay-client/main.py:66-69 | the next two are `workspace "HDMI-1" output HDMI-1` and `workspace "HDMI-1"` |
| Commands.ScenarioScriptTail | gulaschdisplay-client/main.py:72-84 | then `seat seat0 hide_cursor 3000` and `assign [title='^Chromium.*HDMI-1.*'] "HDMI-1"`, and the launch text last |
| Configurator.KillOnlyFirst | gulaschdisplay-client/main.py:50-53 | the browsers are killed exactly once per `configure` call, as its first action, before any display command |
| Configurator.Plan | gulaschdisplay-client/main.py:50-86 | a `configure` call starts with the browser kill and issues between five and seven IPC commands per rule |
| Configurator.BlocksLength | gulaschdisplay-client/main.py:53-84 | the rules' command blocks together hold between five and seven commands per rule |
| Configurator.RuleBlocksAt | gulaschdisplay-client/main.py:53-86 | the i-th block of the plan is the command block of the i-th rule |
| Configurator.BlockContiguous | gulaschdisplay-client/main.py:53-86 | each block is one contiguous piece of the command stream, after all earlier blocks and before all later ones |
| Configurator.BlocksInListOrder | gulaschdisplay-client/main.py:53 | the block of rule i ends no later than the block of any later rule j starts |
| Configurator.SingleRulePlan | gulaschdisplay-client/main.py:50-86 | for a document with one rule, `configure` kills the browsers and then sends exactly that rule's commands |
| Configurator.BlockInPlan | gulaschdisplay-client/main.py:53-86 | in the plan, block i starts right after the browser kill and all earlier blocks |
| Configurator.RuleBlockInPlan | gulaschdisplay-client/main.py:53-86 | in the plan of a document, the actions between the block boundaries of rule i are exactly rule i's commands |
| Configurator.Carried | gulaschdisplay-client/main.py:49-86 | what a run gets through is a prefix of the plan, and it is the whole plan exactly when the connection survives to the end |
| Configurator.WindowManager.IssueBlock | gulaschdisplay-client/main.py:58-84 | sending one rule's commands appends the whole block, or, when the connection is lost at step k inside it, exactly the commands before step k |
| Configurator.WindowManager.RunPlan | gulaschdisplay-client/main.py:50-86 | the loop over the rules performs exactly the prefix of the plan the connection allows, and reports success exactly when that prefix is the whole plan |
| Configurator.WindowManager.Configure | gulaschdisplay-client/main.py:49-86 | `configure(conf)` returns normally exactly when the connection survives the whole plan, and appends exactly the performed prefix of the plan to the display's log. The result does not depend on which outputs exist: the name check has no effect |
| Synchronizer.Step | gulaschdisplay-client/main.py:89-100 | `configure` is called exactly on a 200 with a document that differs from the recorded one or on a forced tick. The recorded document changes only when that call returns, and then becomes the fetched one. A failed request, a non-200 or an undecodable body changes nothing |
| Synchronizer.ShouldApply | gulaschdisplay-client/main.py:98 | `configure` is skipped exactly when the fetched document equals the recorded one and the tick is not forced; an unset record or a forced tick always applies |
| Synchronizer.RunWithoutApplyKeepsState | gulaschdisplay-client/main.py:98-100 | over any sequence of ticks none of which applied successfully, the recorded document stays what it was |
| Synchronizer.RunEndsAtLastApplied | gulaschdisplay-client/main.py:98-100 | after any sequence of ticks, the recorded document is the one fetched by the last tick that applied successfully |
| Synchronizer.RecordedWasFetched | gulaschdisplay-client/main.py:94-100 | starting unset, the recorded document is unset or was fetched with status 200 by a tick that applied it |
| Synchronizer.ForcedTickAttempts | gulaschdisplay-client/main.py:98-99 | a forced tick with a 200 document always calls `configure`, even on the recorded document |
| Synchronizer.NoReapplyOfRecorded | gulaschdisplay-client/main.py:98 | after a successful apply, an unforced tick fetching the same document does nothing |
| Synchronizer.FailedApplyRetried | gulaschdisplay-client/main.py:98-100 | after a failed apply, the next unforced tick with the same document retries exactly when that document was not already recorded |
| Synchronizer.FirstRunScenario | gulaschdisplay-client/main.py:89-100 | on a fresh agent, the forced tick that fetches the one-display scenario document applies it. The display sees one browser kill followed by that rule's commands, and the document is recorded |
| Synchronizer.Sync.constructor | gulaschdisplay-client/main.py:12 | the recorded document starts unset |
| Synchronizer.Sync.Tick | gulaschdisplay-client/main.py:89-100 | `pull_config(force)` ends with `Step`'s outcome and new state. The display receives exactly the side effects of the `configure` call when one is made, and none otherwise |

## Left out

- Network I/O. The HTTP sessions, the request methods and bodies of
  `register` and `update_displays`, and JSON decoding become inputs. A fetch
  is either no response, or a status with a parsed document or nothing.
- The IPC connection. `get_outputs`, `i3.command` and their replies become
  inputs: the list of outputs and the step at which the connection is lost.
  The prints (main.py:56, 67-84) are not modelled, and neither are replies
  that report a command as failed while the call itself returns.
- `killall chromium`. It is one abstract action; process control is outside
  the model.
- The delays and the scheduler. The half-second pause after each rule, the
  five-second period, task creation and the event loop concern timing and
  asynchronous scheduling. The periodic loop swallows every exception, so a
  failing tick does not stop it. `Run` folds ticks one after the other in
  the same way. The startup order (`register`, `update_displays`, the forced
  tick, then the loop) is not modelled.
- `prepare_filesystem`. It is filesystem I/O, and nothing in the program
  calls it.
- The MAC address lookup. It is a hardware query; the MAC is an input
  string.
- The serialisation of `output.modes` through `__dict__`. It depends on
  object internals of the IPC library.
- Malformed documents. `Config` models the well-formed document only. What
  the code does with the others:
  - a missing key raises `KeyError` inside `configure`, after the browsers
    were killed and the earlier rules were sent;
  - an extra key is ignored by `configure`, but it makes the document
    compare unequal to `CURR_CONF` (main.py:98), so a document that differs
    only in an extra key is applied again;
  - floating-point numbers in a mode are formatted by Python's `str`: a
    refresh of 59.94 is sent as `5`, and a width of 1920.0 as `1920.0`;
  - a `mode` that is an empty object is falsy, so `configure` sends no mode
    command, as for `null`; but at main.py:98 it compares unequal to `null`,
    so a document that differs from the recorded one only in this way is
    applied again;
  - a 200 body that parses as JSON but is not an object (`null`, a list, a
    number) has no counterpart in `Fetch`, whose `Response(200, None)` stands
    only for a body that `resp.json()` cannot parse. When that body differs
    from `CURR_CONF` or the tick is forced, `configure` connects, kills the
    browsers (main.py:50-51) and then raises `TypeError` at main.py:53,
    leaving `CURR_CONF` as it was, so this repeats on every tick. A `null`
    body on an unforced tick with nothing recorded equals `CURR_CONF` and
    does nothing.
- Endpoints.Capitalize: models `str.capitalize` on ASCII letters only. Other
  characters are left as they are, whereas Python also maps non-ASCII
  letters and some special cases.
- Commands.LaunchCommandShape: names the directory through `ProfileDir`
  (`/tmp/chromium_userdata/` followed by the output name) rather than one
  literal string, to keep the proof small.
- Commands.ScenarioScriptTail: states the exec text of the scenario through
  `Render` rather than as one literal, for the same reason.
