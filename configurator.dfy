/**
  `configure`: bring the window manager and the browsers in line with one
  desired-state document. The plan is the ordered list of side effects one call
  performs: kill every browser once, then each rule's block of IPC commands in
  list order. `WindowManager.Configure` carries that plan out one step at a
  time and stops where the IPC connection is lost.
 */
module Configurator {
  import opened Wrappers
  import opened Commands

  /** One side effect of `configure`: the `killall chromium` run, or one IPC command text. */
  datatype Action = KillBrowser | Ipc(command: string)

  /** Sending each text of a script as one IPC command. */
  function IpcActions(script: seq<string>): (block: seq<Action>)
    ensures |block| == |script|
    ensures forall k :: 0 <= k < |block| ==> block[k] == Ipc(script[k])
  {
    if script == [] then [] else [Ipc(script[0])] + IpcActions(script[1..])
  }

  /** The IPC commands one loop iteration sends for `rule`. */
  function RuleActions(rule: DisplayRule): seq<Action> {
    IpcActions(RuleScript(rule))
  }

  /** One block per rule, in list order. */
  function RuleBlocks(rules: seq<DisplayRule>): (blocks: seq<seq<Action>>)
    ensures |blocks| == |rules|
  {
    if rules == [] then [] else [RuleActions(rules[0])] + RuleBlocks(rules[1..])
  }

  /** The blocks one after the other. */
  function Concat(blocks: seq<seq<Action>>): seq<Action> {
    if blocks == [] then [] else blocks[0] + Concat(blocks[1..])
  }

  /** Where block `i` starts within `Concat(blocks)`. */
  function BlockStart(blocks: seq<seq<Action>>, i: nat): nat
    requires i <= |blocks|
  {
    |Concat(blocks[..i])|
  }

  /** The blocks of the rules of a document. */
  function Blocks(conf: Config): seq<seq<Action>> {
    RuleBlocks(conf.displays)
  }

  /** Killing the browsers, then the blocks in order. */
  function PlanOf(blocks: seq<seq<Action>>): seq<Action> {
    [KillBrowser] + Concat(blocks)
  }

  /**
    Everything one `configure(conf)` call does, in order: one browser kill,
    then between five and seven IPC commands for each rule.
   */
  function Plan(conf: Config): (p: seq<Action>)
    ensures |p| >= 1 && p[0] == KillBrowser
    ensures 1 + 5 * |conf.displays| <= |p| <= 1 + 7 * |conf.displays|
  {
    BlocksLength(conf.displays);
    PlanOf(Blocks(conf))
  }

  /** Each rule contributes between five and seven commands. */
  lemma {:induction false} BlocksLength(rules: seq<DisplayRule>)
    ensures 5 * |rules| <= |Concat(RuleBlocks(rules))| <= 7 * |rules|
    decreases |rules|
  {
    if rules != [] {
      BlocksLength(rules[1..]);
      assert |RuleActions(rules[0])| == |RuleCommands(rules[0])|;
    }
  }

  /** The browsers are killed exactly once per `configure` call, before any display command. */
  lemma KillOnlyFirst(conf: Config)
    ensures |Plan(conf)| >= 1 && Plan(conf)[0] == KillBrowser
    ensures forall k :: 1 <= k < |Plan(conf)| ==> Plan(conf)[k] != KillBrowser
  {
    forall i | 0 <= i < |Blocks(conf)| ensures KillBrowser !in Blocks(conf)[i] {
      RuleBlocksAt(conf.displays, i);
    }
    ConcatKeepsOut(Blocks(conf), KillBrowser);
    assert Plan(conf)[1..] == Concat(Blocks(conf));
  }

  /** A document with a single rule: kill the browsers, then that rule's commands. */
  lemma SingleRulePlan(rule: DisplayRule)
    ensures Plan(Config([rule])) == [KillBrowser] + RuleActions(rule)
  {
    assert [rule][1..] == [];
    assert Blocks(Config([rule])) == [RuleActions(rule)];
    assert Concat([RuleActions(rule)]) == RuleActions(rule) + Concat([]);
  }

  /** An action found in no block is not in their concatenation. */
  lemma {:induction false} ConcatKeepsOut(blocks: seq<seq<Action>>, a: Action)
    requires forall i :: 0 <= i < |blocks| ==> a !in blocks[i]
    ensures a !in Concat(blocks)
    decreases |blocks|
  {
    if blocks != [] {
      ConcatKeepsOut(blocks[1..], a);
    }
  }

  /** Concatenating two lists of blocks one after the other. */
  lemma {:induction false} ConcatAppend(a: seq<seq<Action>>, b: seq<seq<Action>>)
    ensures Concat(a + b) == Concat(a) + Concat(b)
    decreases |a|
  {
    if a == [] {
      assert a + b == b;
    } else {
      assert (a + b)[0] == a[0];
      assert (a + b)[1..] == a[1..] + b;
      ConcatAppend(a[1..], b);
    }
  }

  /**
    Block `i` stands as one contiguous piece of the concatenation, after the
    blocks before it and before the blocks after it.
   */
  lemma {:induction false} BlockContiguous(blocks: seq<seq<Action>>, i: nat)
    requires i < |blocks|
    ensures Concat(blocks) == Concat(blocks[..i]) + blocks[i] + Concat(blocks[i + 1..])
    ensures BlockStart(blocks, i + 1) == BlockStart(blocks, i) + |blocks[i]|
    ensures Concat(blocks)[BlockStart(blocks, i)..BlockStart(blocks, i + 1)] == blocks[i]
  {
    assert blocks == blocks[..i] + blocks[i..];
    ConcatAppend(blocks[..i], blocks[i..]);
    assert blocks[i..][1..] == blocks[i + 1..];
    assert blocks[..i + 1] == blocks[..i] + [blocks[i]];
    ConcatAppend(blocks[..i], [blocks[i]]);
    assert Concat([blocks[i]]) == blocks[i] + Concat([]);
  }

  /** Blocks follow list order: block `i` ends no later than a later block `j` starts. */
  lemma {:induction false} BlocksInListOrder(blocks: seq<seq<Action>>, i: nat, j: nat)
    requires i < j < |blocks|
    ensures BlockStart(blocks, i + 1) <= BlockStart(blocks, j)
    decreases j - i
  {
    BlockContiguous(blocks, i);
    if i + 1 < j {
      BlocksInListOrder(blocks, i + 1, j);
      BlockContiguous(blocks, i + 1);
    }
  }

  /** The block built for the `i`th rule is that rule's commands. */
  lemma {:induction false} RuleBlocksAt(rules: seq<DisplayRule>, i: nat)
    requires i < |rules|
    ensures RuleBlocks(rules)[i] == RuleActions(rules[i])
    decreases i
  {
    if i > 0 {
      RuleBlocksAt(rules[1..], i - 1);
    }
  }

  /**
    Within the plan of a document, the commands of rule `i` are exactly the
    actions between positions `1 + BlockStart(i)` and `1 + BlockStart(i + 1)`:
    after the initial browser kill and all commands of earlier rules, and
    before any command of a later rule.
   */
  lemma RuleBlockInPlan(conf: Config, i: nat)
    requires i < |conf.displays|
    ensures BlockStart(Blocks(conf), i + 1) == BlockStart(Blocks(conf), i) + |Blocks(conf)[i]|
    ensures 1 + BlockStart(Blocks(conf), i + 1) <= |Plan(conf)|
    ensures Plan(conf)[1 + BlockStart(Blocks(conf), i)..1 + BlockStart(Blocks(conf), i + 1)]
      == RuleActions(conf.displays[i])
  {
    BlockInPlan(Blocks(conf), i);
    RuleBlocksAt(conf.displays, i);
  }

  /** Block `i` sits in the plan right after the kill and the blocks before it. */
  lemma BlockInPlan(blocks: seq<seq<Action>>, i: nat)
    requires i < |blocks|
    ensures BlockStart(blocks, i + 1) == BlockStart(blocks, i) + |blocks[i]|
    ensures 1 + BlockStart(blocks, i + 1) <= |PlanOf(blocks)|
    ensures PlanOf(blocks)[1 + BlockStart(blocks, i)..1 + BlockStart(blocks, i + 1)] == blocks[i]
  {
    BlockContiguous(blocks, i);
    var s, e := BlockStart(blocks, i), BlockStart(blocks, i + 1);
    assert PlanOf(blocks)[1 + s..1 + e] == Concat(blocks)[s..e];
  }

  /**
    Cutting the plan inside block `i`: the first `j` actions of the block
    follow directly on everything planned before it.
   */
  lemma PlanPrefix(blocks: seq<seq<Action>>, i: nat, j: nat)
    requires i < |blocks| && j <= |blocks[i]|
    ensures BlockStart(blocks, i + 1) == BlockStart(blocks, i) + |blocks[i]|
    ensures 1 + BlockStart(blocks, i + 1) <= |PlanOf(blocks)|
    ensures PlanOf(blocks)[..1 + BlockStart(blocks, i) + j] == PlanOf(blocks)[..1 + BlockStart(blocks, i)] + blocks[i][..j]
  {
    BlockContiguous(blocks, i);
    var head := [KillBrowser] + Concat(blocks[..i]);
    assert PlanOf(blocks) == head + blocks[i] + Concat(blocks[i + 1..]);
    SlicePastHead(head, blocks[i], Concat(blocks[i + 1..]), j);
    SlicePastHead(head, blocks[i], Concat(blocks[i + 1..]), 0);
    assert blocks[i][..0] == [];
  }

  /** Whether a run of `plan` whose connection is lost after `lostAt` steps gets to the end. */
  predicate Completes(plan: seq<Action>, lostAt: Option<nat>) {
    lostAt.None? || lostAt.value >= |plan|
  }

  /** The steps of `plan` a run gets through: all of it, or those before the connection was lost. */
  function Carried(plan: seq<Action>, lostAt: Option<nat>): (done: seq<Action>)
    ensures done <= plan
    ensures Completes(plan, lostAt) <==> done == plan
  {
    if Completes(plan, lostAt) then plan else plan[..lostAt.value]
  }

  /** What sending `block` as steps `start`, `start + 1`, ... gets through before the connection is lost. */
  function SentPart(block: seq<Action>, start: nat, lostAt: Option<nat>): (sent: seq<Action>)
    ensures sent <= block
  {
    if lostAt.None? || lostAt.value >= start + |block| then block
    else if lostAt.value <= start then []
    else block[..lostAt.value - start]
  }

  /**
    What carrying out block `i` from step `1 + BlockStart(i)` adds to the plan
    carried out so far: either the plan up to the end of the block, or, when
    the connection is lost inside the block, everything `Carried` promises.
   */
  lemma AfterBlock(blocks: seq<seq<Action>>, i: nat, lostAt: Option<nat>)
    requires i < |blocks|
    requires lostAt.None? || lostAt.value >= 1 + BlockStart(blocks, i)
    ensures BlockStart(blocks, i + 1) == BlockStart(blocks, i) + |blocks[i]|
    ensures 1 + BlockStart(blocks, i + 1) <= |PlanOf(blocks)|
    ensures lostAt.None? || lostAt.value >= 1 + BlockStart(blocks, i + 1) ==>
      PlanOf(blocks)[..1 + BlockStart(blocks, i)] + SentPart(blocks[i], 1 + BlockStart(blocks, i), lostAt)
        == PlanOf(blocks)[..1 + BlockStart(blocks, i + 1)]
    ensures lostAt.Some? && lostAt.value < 1 + BlockStart(blocks, i + 1) ==>
      !Completes(PlanOf(blocks), lostAt)
      && PlanOf(blocks)[..1 + BlockStart(blocks, i)] + SentPart(blocks[i], 1 + BlockStart(blocks, i), lostAt)
        == Carried(PlanOf(blocks), lostAt)
  {
    if lostAt.None? || lostAt.value >= 1 + BlockStart(blocks, i) + |blocks[i]| {
      PlanPrefix(blocks, i, |blocks[i]|);
      assert blocks[i][..|blocks[i]|] == blocks[i];
    } else {
      PlanPrefix(blocks, i, lostAt.value - 1 - BlockStart(blocks, i));
      assert blocks[i][..0] == [];
    }
  }

  /** Cutting `head + block + tail` inside `block`. */
  lemma SlicePastHead(head: seq<Action>, block: seq<Action>, tail: seq<Action>, j: nat)
    requires j <= |block|
    ensures (head + block + tail)[..|head| + j] == head + block[..j]
  {
    assert (head + block + tail)[..|head| + j] == (head + block)[..|head| + j];
  }

  /**
    Whether a `configure` call whose IPC connection is lost after `lostAt`
    steps of the plan still returns normally: it does when the connection is
    never lost, or only after the last step.
   */
  predicate ApplySucceeds(conf: Config, lostAt: Option<nat>) {
    Completes(Plan(conf), lostAt)
  }

  /** The side effects of `configure(conf)` that actually happen. */
  function Performed(conf: Config, lostAt: Option<nat>): seq<Action> {
    Carried(Plan(conf), lostAt)
  }

  /**
    The window manager and process supervisor as `configure` sees them: the
    log of every side effect performed so far, in order.
   */
  class WindowManager {
    var performed: seq<Action>

    constructor ()
      ensures performed == []
    {
      performed := [];
    }

    /**
      `configure(conf)`. `outputs` is what `get_outputs` reports. `configure`
      tests whether a rule's name is not among the output objects in that
      reply; a string never equals one of those objects, so the test always
      holds, its branch does nothing, and the result does not depend on
      `outputs`. `lostAt` says after how many plan steps the
      IPC connection fails (`Some(0)`: connecting fails, so not even the
      browsers are killed); the call then stops and reports failure.
     */
    method Configure(conf: Config, outputs: seq<string>, lostAt: Option<nat>) returns (ok: bool)
      modifies this
      ensures ok <==> ApplySucceeds(conf, lostAt)
      ensures performed == old(performed) + Performed(conf, lostAt)
    {
      ok := RunPlan(conf.displays, Blocks(conf), outputs, lostAt);
    }

    /** The body of `configure`, given each rule's block of commands. */
    method RunPlan(rules: seq<DisplayRule>, blocks: seq<seq<Action>>, outputs: seq<string>, lostAt: Option<nat>)
      returns (ok: bool)
      requires |blocks| == |rules|
      modifies this
      ensures ok <==> Completes(PlanOf(blocks), lostAt)
      ensures performed == old(performed) + Carried(PlanOf(blocks), lostAt)
    {
      ghost var plan := PlanOf(blocks);
      if lostAt == Some(0) {
        assert plan[..0] == [];
        return false;
      }
      performed := performed + [KillBrowser];
      var step := 1;
      var i := 0;
      assert plan[..1] == [KillBrowser];
      while i < |rules|
        invariant 0 <= i <= |rules|
        invariant step == 1 + BlockStart(blocks, i) <= |plan|
        invariant lostAt.None? || lostAt.value >= step
        invariant performed == old(performed) + plan[..step]
      {
        if rules[i].name !in outputs {
          // Always taken in `configure`, whose reply holds output objects, not names; it does nothing.
        }
        AfterBlock(blocks, i, lostAt);
        ghost var done := plan[..step];
        var sent := IssueBlock(blocks[i], step, lostAt);
        assert performed == old(performed) + (done + SentPart(blocks[i], step, lostAt));
        if !sent {
          return false;
        }
        step := step + |blocks[i]|;
        i := i + 1;
      }
      assert blocks[..i] == blocks;
      assert plan[..step] == plan;
      ok := true;
    }

    /**
      Send one rule's commands, one `i3.command` call each, as steps `start`,
      `start + 1`, ... of the plan. Stops at the step where the connection is lost.
     */
    method IssueBlock(block: seq<Action>, start: nat, lostAt: Option<nat>) returns (sent: bool)
      requires lostAt.None? || lostAt.value >= start
      modifies this
      ensures sent <==> lostAt.None? || lostAt.value >= start + |block|
      ensures performed == old(performed) + SentPart(block, start, lostAt)
    {
      var j := 0;
      while j < |block|
        invariant 0 <= j <= |block|
        invariant lostAt.None? || lostAt.value >= start + j
        invariant performed == old(performed) + block[..j]
      {
        if lostAt == Some(start + j) {
          return false;
        }
        performed := performed + [block[j]];
        assert block[..j + 1] == block[..j] + [block[j]];
        j := j + 1;
      }
      assert block[..j] == block;
      sent := true;
    }
  }
}
