/**
  `pull_config`: the change-detection state machine around `configure`. The
  state is the last document applied successfully (the global `CURR_CONF`,
  initially unset). One tick fetches the device's configuration, and applies it
  when it differs from the recorded one or when the caller forces it; the
  document is recorded only once `configure` has returned.
 */
module Synchronizer {
  import opened Wrappers
  import opened Commands
  import opened Configurator

  /**
    What the HTTP request for the configuration produced: no response at all
    (the request raises), or a status and, when the body parses as a
    configuration document, that document (`None`: `resp.json()` raises).
   */
  datatype Fetch = Unreachable | Response(status: int, body: Option<Config>)

  /** How one tick ended. */
  datatype Outcome =
    | NoResponse    // the request raised (swallowed by the periodic loop)
    | NotOk         // a status other than 200: return without doing anything
    | Undecodable   // the body is no document: `resp.json()` raised
    | Unchanged     // same document as recorded and not forced
    | Applied       // `configure` returned; the document is now recorded
    | ApplyFailed   // `configure` raised part way

  /** `conf_response != CURR_CONF or force_update`. */
  function ShouldApply(last: Option<Config>, doc: Config, force: bool): (apply: bool)
    ensures last == None ==> apply
    ensures force ==> apply
    ensures !apply <==> last == Some(doc) && !force
  {
    Some(doc) != last || force
  }

  /** Whether a tick in state `last` calls `configure`. */
  predicate Attempts(last: Option<Config>, fetch: Fetch, force: bool) {
    fetch.Response? && fetch.status == 200 && fetch.body.Some? && ShouldApply(last, fetch.body.value, force)
  }

  /** The outcome of one tick and the recorded document after it. */
  datatype TickResult = TickResult(outcome: Outcome, last: Option<Config>)

  /**
    One tick of `pull_config(force)` in state `last`, where `applyOk` says
    whether `configure` would return normally. `configure` is called exactly
    when the fetch gave a 200 with a document that differs from the recorded
    one or the tick is forced; the state changes only when that call returns,
    and then records the fetched document.
   */
  function Step(last: Option<Config>, fetch: Fetch, force: bool, applyOk: bool): (r: TickResult)
    ensures (r.outcome == Applied || r.outcome == ApplyFailed) <==> Attempts(last, fetch, force)
    ensures r.outcome == Applied <==> Attempts(last, fetch, force) && applyOk
    ensures r.outcome == Applied ==> r.last == fetch.body && r.last.Some?
    ensures r.outcome != Applied ==> r.last == last
    ensures !fetch.Response? ==> r.outcome == NoResponse
    ensures fetch.Response? && fetch.status != 200 ==> r.outcome == NotOk
    ensures r.outcome == Unchanged <==>
      fetch.Response? && fetch.status == 200 && fetch.body == last && last.Some? && !force
  {
    if fetch.Unreachable? then TickResult(NoResponse, last)
    else if fetch.status != 200 then TickResult(NotOk, last)
    else if fetch.body.None? then TickResult(Undecodable, last)
    else if !ShouldApply(last, fetch.body.value, force) then TickResult(Unchanged, last)
    else if applyOk then TickResult(Applied, fetch.body)
    else TickResult(ApplyFailed, last)
  }

  /** One tick's inputs: what the fetch returned, whether it is forced, whether `configure` returns normally. */
  datatype TickInput = TickInput(fetch: Fetch, force: bool, applyOk: bool)

  function StepWith(last: Option<Config>, t: TickInput): TickResult {
    Step(last, t.fetch, t.force, t.applyOk)
  }

  /** The recorded document after the ticks `ticks`, starting from `init`. */
  function Run(init: Option<Config>, ticks: seq<TickInput>): Option<Config>
    decreases |ticks|
  {
    if ticks == [] then init else StepWith(Run(init, ticks[..|ticks| - 1]), ticks[|ticks| - 1]).last
  }

  /** How each of the ticks ended. */
  function Outcomes(init: Option<Config>, ticks: seq<TickInput>): (os: seq<Outcome>)
    ensures |os| == |ticks|
    decreases |ticks|
  {
    if ticks == [] then []
    else Outcomes(init, ticks[..|ticks| - 1]) + [StepWith(Run(init, ticks[..|ticks| - 1]), ticks[|ticks| - 1]).outcome]
  }

  /** The outcomes of a prefix of the ticks are a prefix of the outcomes. */
  lemma {:induction false} OutcomesPrefix(init: Option<Config>, ticks: seq<TickInput>, n: nat)
    requires n <= |ticks|
    ensures Outcomes(init, ticks[..n]) == Outcomes(init, ticks)[..n]
    decreases |ticks|
  {
    if n < |ticks| {
      var prev := ticks[..|ticks| - 1];
      assert prev[..n] == ticks[..n];
      OutcomesPrefix(init, prev, n);
    } else {
      assert ticks[..n] == ticks;
    }
  }

  /** The `i`th tick runs in the state the ticks before it left behind. */
  lemma OutcomeAt(init: Option<Config>, ticks: seq<TickInput>, i: nat)
    requires i < |ticks|
    ensures Outcomes(init, ticks)[i] == StepWith(Run(init, ticks[..i]), ticks[i]).outcome
    ensures Run(init, ticks[..i + 1]) == StepWith(Run(init, ticks[..i]), ticks[i]).last
  {
    OutcomesPrefix(init, ticks, i + 1);
    var pre := ticks[..i + 1];
    assert pre[..|pre| - 1] == ticks[..i];
  }

  /** Without a successful apply the recorded document never changes. */
  lemma {:induction false} RunWithoutApplyKeepsState(init: Option<Config>, ticks: seq<TickInput>)
    requires forall j :: 0 <= j < |ticks| ==> Outcomes(init, ticks)[j] != Applied
    ensures Run(init, ticks) == init
    decreases |ticks|
  {
    if ticks != [] {
      var prev := ticks[..|ticks| - 1];
      OutcomesPrefix(init, ticks, |prev|);
      assert forall j :: 0 <= j < |prev| ==> Outcomes(init, prev)[j] == Outcomes(init, ticks)[j];
      RunWithoutApplyKeepsState(init, prev);
      assert Outcomes(init, ticks)[|prev|] != Applied;
    }
  }

  /**
    The recorded document is the one fetched by the last tick that applied
    successfully: ticks after it, whatever they fetched, changed nothing.
   */
  lemma {:induction false} RunEndsAtLastApplied(init: Option<Config>, ticks: seq<TickInput>, i: nat)
    requires i < |ticks| && Outcomes(init, ticks)[i] == Applied
    requires forall j :: i < j < |ticks| ==> Outcomes(init, ticks)[j] != Applied
    ensures ticks[i].fetch.Response? && Run(init, ticks) == ticks[i].fetch.body
    decreases |ticks|
  {
    var prev := ticks[..|ticks| - 1];
    OutcomesPrefix(init, ticks, |prev|);
    if i == |ticks| - 1 {
      assert Outcomes(init, ticks)[i] == StepWith(Run(init, prev), ticks[i]).outcome;
    } else {
      assert forall j :: 0 <= j < |prev| ==> Outcomes(init, prev)[j] == Outcomes(init, ticks)[j];
      RunEndsAtLastApplied(init, prev, i);
      assert Outcomes(init, ticks)[|prev|] != Applied;
    }
  }

  /**
    Starting unset, the recorded document is always one that some tick fetched
    with status 200 and applied.
   */
  lemma RecordedWasFetched(ticks: seq<TickInput>)
    ensures Run(None, ticks) == None
      || (exists i :: 0 <= i < |ticks| && Outcomes(None, ticks)[i] == Applied
            && ticks[i].fetch == Response(200, Run(None, ticks)))
  {
    if exists i :: 0 <= i < |ticks| && Outcomes(None, ticks)[i] == Applied {
      var i :| 0 <= i < |ticks| && Outcomes(None, ticks)[i] == Applied;
      while exists j :: i < j < |ticks| && Outcomes(None, ticks)[j] == Applied
        invariant 0 <= i < |ticks| && Outcomes(None, ticks)[i] == Applied
        decreases |ticks| - i
      {
        var j :| i < j < |ticks| && Outcomes(None, ticks)[j] == Applied;
        i := j;
      }
      RunEndsAtLastApplied(None, ticks, i);
      OutcomeAt(None, ticks, i);
    } else {
      RunWithoutApplyKeepsState(None, ticks);
    }
  }

  /**
    The startup tick is forced: it calls `configure` whenever the fetch gives a
    200 with a document, even when that document is already recorded.
   */
  lemma ForcedTickAttempts(last: Option<Config>, doc: Config, applyOk: bool)
    ensures Step(last, Response(200, Some(doc)), true, applyOk).outcome == (if applyOk then Applied else ApplyFailed)
  {
  }

  /**
    After a successful apply, fetching the same document again without forcing
    changes nothing: the apply is not repeated.
   */
  lemma NoReapplyOfRecorded(last: Option<Config>, fetch: Fetch, force: bool, applyOk: bool)
    requires Step(last, fetch, force, true).outcome == Applied
    ensures Step(Step(last, fetch, force, true).last, fetch, false, applyOk) == TickResult(Unchanged, fetch.body)
  {
  }

  /**
    A failed apply is retried by the next unforced tick that fetches the same
    document exactly when that document was not already the recorded one: a
    failed forced re-apply of the recorded document is not retried.
   */
  lemma FailedApplyRetried(last: Option<Config>, fetch: Fetch, force: bool)
    requires Step(last, fetch, force, false).outcome == ApplyFailed
    ensures Attempts(Step(last, fetch, force, false).last, fetch, false) <==> last != fetch.body
  {
  }

  /** Whether `configure` would return normally on the document a tick fetched. */
  predicate ApplyOk(fetch: Fetch, lostAt: Option<nat>) {
    fetch.Response? && fetch.body.Some? && ApplySucceeds(fetch.body.value, lostAt)
  }

  /**
    The client's synchronisation state: the last document applied successfully
    (`CURR_CONF`) and the display it configures.
   */
  class Sync {
    var lastApplied: Option<Config>
    const display: WindowManager

    /** `CURR_CONF = None` at start. */
    constructor (display: WindowManager)
      ensures lastApplied == None && this.display == display
    {
      lastApplied := None;
      this.display := display;
    }

    /**
      `pull_config(force)`. `fetch` is what the HTTP request returned; `outputs`
      and `lostAt` are passed to `configure` when it is called. The new state
      and the outcome are those of `Step`, and the display receives exactly the
      side effects of the `configure` call, or none when there is no call.
     */
    method Tick(fetch: Fetch, force: bool, outputs: seq<string>, lostAt: Option<nat>) returns (outcome: Outcome)
      modifies this, display
      ensures outcome == Step(old(lastApplied), fetch, force, ApplyOk(fetch, lostAt)).outcome
      ensures lastApplied == Step(old(lastApplied), fetch, force, ApplyOk(fetch, lostAt)).last
      ensures display.performed == old(display.performed)
        + if Attempts(old(lastApplied), fetch, force) then Performed(fetch.body.value, lostAt) else []
    {
      if fetch.Unreachable? {
        return NoResponse;
      }
      if fetch.status != 200 {
        return NotOk;
      }
      if fetch.body.None? {
        return Undecodable;
      }
      var doc := fetch.body.value;
      if Some(doc) != lastApplied || force {
        var ok := display.Configure(doc, outputs, lostAt);
        if !ok {
          return ApplyFailed;
        }
        lastApplied := Some(doc);
        outcome := Applied;
      } else {
        outcome := Unchanged;
      }
    }
  }

  /**
    The single-display scenario on a fresh agent: the forced startup tick
    fetches `{displays: [{name: "HDMI-1", rotation: "normal", mode: null,
    url: "https://example.com"}]}`, kills the browsers once, sends that rule's
    commands, and records the document.
   */
  method FirstRunScenario() returns (outcome: Outcome, log: seq<Action>, recorded: Option<Config>)
    ensures outcome == Applied
    ensures log == [KillBrowser] + RuleActions(ScenarioRule())
    ensures recorded == Some(Config([ScenarioRule()]))
  {
    var display := new WindowManager();
    var sync := new Sync(display);
    var doc := Config([ScenarioRule()]);
    outcome := sync.Tick(Response(200, Some(doc)), true, ["HDMI-1"], None);
    log := display.performed;
    recorded := sync.lastApplied;
    SingleRulePlan(ScenarioRule());
  }
}
