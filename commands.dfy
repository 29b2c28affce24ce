/**
 * `getCommands`: the protocol's command tree, rebuilt from the flat
 * `protocolCommandsById` map and annotated with which commands are current.
 */
module Commands {
  import opened Wrappers
  import opened RobotState

  /** A command as the run log shows it: the stored command plus the derived `isCurrent` and `isLast` flags. */
  datatype AnnotatedCommand = AnnotatedCommand(
    id: CommandId,
    description: string,
    handledAt: Option<Timestamp>,
    isCurrent: bool,
    isLast: bool,
    children: seq<AnnotatedCommand>)

  /**
   * Every id of `ids` is a key of `byId`, and so, recursively, is every child
   * id; every chain of child links ends within `depth` steps (no cycles).
   */
  ghost predicate Resolves(byId: map<CommandId, Command>, ids: seq<CommandId>, depth: nat)
    decreases depth
  {
    forall k :: 0 <= k < |ids| ==>
      && ids[k] in byId
      && (byId[ids[k]].children != [] ==> depth > 0 && Resolves(byId, byId[ids[k]].children, depth - 1))
  }

  /** The session's command tree can be rebuilt: every id resolves and the child relation is acyclic. */
  ghost predicate CommandsResolve(session: SessionState)
  {
    Resolves(session.protocolCommandsById, session.protocolCommands, |session.protocolCommandsById|)
  }

  /** A command has been handled when its `handledAt` is not null. */
  predicate IsHandled(c: Command) { c.handledAt.Some? }

  /** `mapIdToCommand`: annotates the command at position `i` of the sibling list `ids`. */
  function MapIdToCommand(byId: map<CommandId, Command>, ids: seq<CommandId>, i: nat, parentIsCurrent: bool, depth: nat): (r: AnnotatedCommand)
    requires i < |ids| && Resolves(byId, ids, depth)
    ensures r.id == ids[i] && r.description == byId[ids[i]].description && r.handledAt == byId[ids[i]].handledAt
    ensures r.isCurrent <==>
      parentIsCurrent && IsHandled(byId[ids[i]]) && (i + 1 == |ids| || !IsHandled(byId[ids[i + 1]]))
    ensures r.isLast <==> r.isCurrent && r.children == []
    ensures Mirrors(byId, byId[ids[i]].children, r.children)
    ensures FollowsCurrentRule(byId, byId[ids[i]].children, r.isCurrent, r.children)
    decreases depth, 0
  {
    var c := byId[ids[i]];
    var isCurrent := parentIsCurrent && IsHandled(c) && (i + 1 == |ids| || !IsHandled(byId[ids[i + 1]]));
    AnnotatedCommand(
      ids[i], c.description, c.handledAt, isCurrent, isCurrent && |c.children| == 0,
      if c.children == [] then [] else TraverseCommands(byId, c.children, isCurrent, depth - 1))
  }

  /** `traverseCommands`: annotates a whole sibling list under a parent whose current flag is given. */
  function TraverseCommands(byId: map<CommandId, Command>, ids: seq<CommandId>, parentIsCurrent: bool, depth: nat): (r: seq<AnnotatedCommand>)
    requires Resolves(byId, ids, depth)
    ensures Mirrors(byId, ids, r)
    ensures FollowsCurrentRule(byId, ids, parentIsCurrent, r)
    decreases depth, 1
  {
    seq(|ids|, i requires 0 <= i < |ids| => MapIdToCommand(byId, ids, i, parentIsCurrent, depth))
  }

  /** `getCommands`: the annotated tree of the protocol's top-level commands (the roots count as under a current parent). */
  function GetCommands(state: State): (r: seq<AnnotatedCommand>)
    requires CommandsResolve(state.session)
    ensures Mirrors(state.session.protocolCommandsById, state.session.protocolCommands, r)
    ensures FollowsCurrentRule(state.session.protocolCommandsById, state.session.protocolCommands, true, r)
  {
    var byId := state.session.protocolCommandsById;
    TraverseCommands(byId, state.session.protocolCommands, true, |byId|)
  }

  // ---- the annotated tree mirrors its input ----

  /** `tree` has the ids of `ids` in the same order, with their descriptions, `handledAt` values and children. */
  ghost predicate Mirrors(byId: map<CommandId, Command>, ids: seq<CommandId>, tree: seq<AnnotatedCommand>)
    decreases tree
  {
    && |tree| == |ids|
    && forall k :: 0 <= k < |tree| ==>
      && ids[k] in byId
      && tree[k].id == ids[k]
      && tree[k].description == byId[ids[k]].description
      && tree[k].handledAt == byId[ids[k]].handledAt
      && Mirrors(byId, byId[ids[k]].children, tree[k].children)
  }

  // ---- the current and last flags ----

  /**
   * A command is current exactly when its parent is current, it has been
   * handled, and it is the last sibling or its next sibling is unhandled; it
   * is last exactly when it is current and has no children.
   */
  ghost predicate FollowsCurrentRule(byId: map<CommandId, Command>, ids: seq<CommandId>, parentIsCurrent: bool, tree: seq<AnnotatedCommand>)
    decreases tree
  {
    && |tree| == |ids|
    && (forall k :: 0 <= k < |ids| ==> ids[k] in byId)
    && forall k {:trigger tree[k]} :: 0 <= k < |tree| ==>
      && (tree[k].isCurrent <==>
            parentIsCurrent && IsHandled(byId[ids[k]]) && (k + 1 == |ids| || !IsHandled(byId[ids[k + 1]])))
      && (tree[k].isLast <==> tree[k].isCurrent && tree[k].children == [])
      && FollowsCurrentRule(byId, byId[ids[k]].children, tree[k].isCurrent, tree[k].children)
  }

  /** No command of the forest is current or last. */
  ghost predicate NoneCurrent(tree: seq<AnnotatedCommand>)
    decreases tree
  {
    forall k :: 0 <= k < |tree| ==> !tree[k].isCurrent && !tree[k].isLast && NoneCurrent(tree[k].children)
  }

  /** Under a parent that is not current, nothing is current: every current command's parent is current. */
  lemma {:induction false} NotCurrentParentIsInert(byId: map<CommandId, Command>, ids: seq<CommandId>, parentIsCurrent: bool, tree: seq<AnnotatedCommand>)
    requires FollowsCurrentRule(byId, ids, parentIsCurrent, tree)
    requires !parentIsCurrent
    ensures NoneCurrent(tree)
    decreases tree
  {
    forall k | 0 <= k < |tree|
      ensures !tree[k].isCurrent && !tree[k].isLast && NoneCurrent(tree[k].children)
    {
      var children := byId[ids[k]].children;
      NotCurrentParentIsInert(byId, children, tree[k].isCurrent, tree[k].children);
    }
  }

  /**
   * Within every sibling list the handled commands come first: a handled
   * command is preceded only by handled siblings.
   */
  ghost predicate HandledInOrder(byId: map<CommandId, Command>, ids: seq<CommandId>, depth: nat)
    decreases depth
  {
    && (forall i, j :: 0 <= i < j < |ids| && ids[i] in byId && ids[j] in byId && IsHandled(byId[ids[j]]) ==> IsHandled(byId[ids[i]]))
    && forall k :: 0 <= k < |ids| && ids[k] in byId && byId[ids[k]].children != [] && depth > 0 ==>
         HandledInOrder(byId, byId[ids[k]].children, depth - 1)
  }

  /** The number of commands flagged `isLast` in a forest. */
  function ActiveLeaves(tree: seq<AnnotatedCommand>): nat
    decreases tree
  {
    if tree == [] then 0 else ActiveLeavesIn(tree[0]) + ActiveLeaves(tree[1..])
  }

  /** The number of commands flagged `isLast` in one command's subtree, itself included. */
  function ActiveLeavesIn(c: AnnotatedCommand): nat
    decreases c
  {
    (if c.isLast then 1 else 0) + ActiveLeaves(c.children)
  }

  lemma {:induction false} NoneCurrentHasNoActiveLeaf(tree: seq<AnnotatedCommand>)
    requires NoneCurrent(tree)
    ensures ActiveLeaves(tree) == 0
    decreases tree
  {
    if tree != [] {
      NoneCurrentHasNoActiveLeaf(tree[0].children);
      assert NoneCurrent(tree[1..]) by {
        forall k | 0 <= k < |tree[1..]| ensures !tree[1..][k].isCurrent && !tree[1..][k].isLast && NoneCurrent(tree[1..][k].children) {
          assert tree[1..][k] == tree[k + 1];
        }
      }
      NoneCurrentHasNoActiveLeaf(tree[1..]);
    }
  }

  /** A forest in which at most one subtree holds a single active leaf holds at most one active leaf. */
  lemma {:induction false} OneSubtreeContributes(tree: seq<AnnotatedCommand>)
    requires forall k :: 0 <= k < |tree| ==> ActiveLeavesIn(tree[k]) <= 1
    requires forall i, j :: 0 <= i < j < |tree| ==> ActiveLeavesIn(tree[i]) == 0 || ActiveLeavesIn(tree[j]) == 0
    ensures ActiveLeaves(tree) <= 1
    decreases tree
  {
    if tree != [] {
      var rest := tree[1..];
      assert forall k :: 0 <= k < |rest| ==> rest[k] == tree[k + 1];
      if ActiveLeavesIn(tree[0]) == 0 {
        OneSubtreeContributes(rest);
      } else {
        NoActiveLeafAnywhere(rest);
      }
    }
  }

  lemma {:induction false} NoActiveLeafAnywhere(tree: seq<AnnotatedCommand>)
    requires forall k :: 0 <= k < |tree| ==> ActiveLeavesIn(tree[k]) == 0
    ensures ActiveLeaves(tree) == 0
    decreases tree
  {
    if tree != [] {
      assert forall k :: 0 <= k < |tree[1..]| ==> tree[1..][k] == tree[k + 1];
      NoActiveLeafAnywhere(tree[1..]);
    }
  }

  /**
   * When every sibling list is handled in order, at most one command of the
   * annotated tree is flagged `isLast`: there is at most one active leaf.
   */
  lemma {:induction false} AtMostOneActiveLeaf(byId: map<CommandId, Command>, ids: seq<CommandId>, parentIsCurrent: bool, depth: nat)
    requires Resolves(byId, ids, depth) && HandledInOrder(byId, ids, depth)
    ensures ActiveLeaves(TraverseCommands(byId, ids, parentIsCurrent, depth)) <= 1
    decreases depth
  {
    var tree := TraverseCommands(byId, ids, parentIsCurrent, depth);
    forall k | 0 <= k < |tree|
      ensures ActiveLeavesIn(tree[k]) <= 1
      ensures !tree[k].isCurrent ==> ActiveLeavesIn(tree[k]) == 0
    {
      var children := byId[ids[k]].children;
      if !tree[k].isCurrent {
        NotCurrentParentIsInert(byId, children, false, tree[k].children);
        NoneCurrentHasNoActiveLeaf(tree[k].children);
      } else if children != [] {
        AtMostOneActiveLeaf(byId, children, true, depth - 1);
      }
    }
    forall i, j | 0 <= i < j < |tree|
      ensures ActiveLeavesIn(tree[i]) == 0 || ActiveLeavesIn(tree[j]) == 0
    {
      // the sibling after a current i is unhandled, so no later sibling j is handled
      assert !(tree[i].isCurrent && tree[j].isCurrent);
    }
    OneSubtreeContributes(tree);
  }

  /** `getCommands` has at most one active leaf when every sibling list is handled in order. */
  lemma CommandsHaveAtMostOneActiveLeaf(state: State)
    requires CommandsResolve(state.session)
    requires HandledInOrder(state.session.protocolCommandsById, state.session.protocolCommands, |state.session.protocolCommandsById|)
    ensures ActiveLeaves(GetCommands(state)) <= 1
  {
    AtMostOneActiveLeaf(state.session.protocolCommandsById, state.session.protocolCommands, true, |state.session.protocolCommandsById|);
  }
}
