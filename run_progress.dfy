/**
 * `getRunProgress`: the share of leaf commands that have been handled, as a
 * percentage, computed by the `countLeaves` fold over the annotated tree.
 */
module RunProgress {
  import opened Wrappers
  import opened RobotState
  import opened Commands

  /** The `{handled, total}` accumulator of the fold. */
  datatype LeafCount = LeafCount(handled: nat, total: nat)

  /**
   * `countLeaves`: a command with children folds over them; a leaf adds one
   * to the total, and one to `handled` when its `handledAt` is truthy.
   */
  function CountLeaves(result: LeafCount, command: AnnotatedCommand): (r: LeafCount)
    ensures r == LeafCount(
      result.handled + HandledCount(LeavesOfCommand(command)),
      result.total + |LeavesOfCommand(command)|)
    decreases command
  {
    if |command.children| > 0 then ReduceLeaves(result, command.children)
    else
      assert HandledCount([command]) == if NumberTruthy(command.handledAt) then 1 else 0;
      LeafCount(
        if NumberTruthy(command.handledAt) then result.handled + 1 else result.handled,
        result.total + 1)
  }

  /** `commands.reduce(countLeaves, result)`: a left fold over a sibling list. */
  function ReduceLeaves(result: LeafCount, commands: seq<AnnotatedCommand>): (r: LeafCount)
    ensures r == LeafCount(
      result.handled + HandledCount(LeavesOf(commands)),
      result.total + |LeavesOf(commands)|)
    decreases commands
  {
    if commands == [] then result
    else
      HandledCountAppend(LeavesOfCommand(commands[0]), LeavesOf(commands[1..]));
      ReduceLeaves(CountLeaves(result, commands[0]), commands[1..])
  }

  // ---- reference definition: the leaves of the forest ----

  /** The commands without children, in depth-first order. */
  function LeavesOf(commands: seq<AnnotatedCommand>): (r: seq<AnnotatedCommand>)
    ensures forall k :: 0 <= k < |r| ==> r[k].children == []
    decreases commands
  {
    if commands == [] then [] else LeavesOfCommand(commands[0]) + LeavesOf(commands[1..])
  }

  function LeavesOfCommand(command: AnnotatedCommand): (r: seq<AnnotatedCommand>)
    ensures forall k :: 0 <= k < |r| ==> r[k].children == []
    decreases command
  {
    if |command.children| > 0 then LeavesOf(command.children) else [command]
  }

  /** The number of leaves whose `handledAt` is truthy. */
  function HandledCount(leaves: seq<AnnotatedCommand>): (r: nat)
    ensures r <= |leaves|
  {
    if leaves == [] then 0
    else (if NumberTruthy(leaves[0].handledAt) then 1 else 0) + HandledCount(leaves[1..])
  }

  lemma {:induction false} HandledCountAppend(a: seq<AnnotatedCommand>, b: seq<AnnotatedCommand>)
    ensures HandledCount(a + b) == HandledCount(a) + HandledCount(b)
  {
    if a != [] {
      assert (a + b)[1..] == a[1..] + b;
      HandledCountAppend(a[1..], b);
    } else {
      assert a + b == b;
    }
  }

  /**
   * The percentage of handled leaves: zero when there are no leaves,
   * otherwise handled / total * 100 (computed exactly, not in floating point).
   */
  function RunProgress(commands: seq<AnnotatedCommand>): (r: real)
    ensures 0.0 <= r <= 100.0
    ensures |LeavesOf(commands)| == 0 ==> r == 0.0
    ensures |LeavesOf(commands)| > 0 ==>
      r == (HandledCount(LeavesOf(commands)) as real / |LeavesOf(commands)| as real) * 100.0
    ensures r == 100.0 <==> |LeavesOf(commands)| > 0 && HandledCount(LeavesOf(commands)) == |LeavesOf(commands)|
  {
    var leaves := ReduceLeaves(LeafCount(0, 0), commands);
    if leaves.total == 0 then 0.0
    else ProgressBounds(leaves.handled, leaves.total); (leaves.handled as real / leaves.total as real) * 100.0
  }

  lemma ProgressBounds(handled: nat, total: nat)
    requires 0 < total && handled <= total
    ensures 0.0 <= (handled as real / total as real) * 100.0 <= 100.0
    ensures (handled as real / total as real) * 100.0 == 100.0 <==> handled == total
  {
  }


  /** `getRunProgress` over the session's annotated command tree. */
  function GetRunProgress(state: State): (r: real)
    requires CommandsResolve(state.session)
    ensures 0.0 <= r <= 100.0
    ensures state.session.protocolCommands == [] ==> r == 0.0
  {
    RunProgress(GetCommands(state))
  }

  /** Two top-level leaf commands, the first handled and the second not, give 50 percent. */
  lemma HalfOfTwoLeaves(state: State, t: Timestamp)
    requires t != 0
    requires state.session.protocolCommands == [1, 2]
    requires state.session.protocolCommandsById == map[1 := Command("a", Some(t), []), 2 := Command("b", None, [])]
    ensures CommandsResolve(state.session) && GetRunProgress(state) == 50.0
  {
    var byId := state.session.protocolCommandsById;
    assert |byId| == 2 by { assert byId.Keys == {1, 2}; }
    assert CommandsResolve(state.session);
    var tree := GetCommands(state);
    assert tree[0].children == [] && tree[1].children == [];
    assert LeavesOf(tree) == [tree[0], tree[1]] by {
      assert LeavesOf(tree[1..]) == [tree[1]] + LeavesOf(tree[2..]);
    }
    assert HandledCount([tree[0], tree[1]]) == 1;
  }
}
