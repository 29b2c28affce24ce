/** The connection selectors: the discovered-robot list and the connection status. */
module Connection {
  import opened Wrappers
  import opened RobotState

  /** A discovered robot: its metadata (empty when unknown) and whether it is the connection target. */
  datatype DiscoveredRobot = DiscoveredRobot(metadata: RobotMetadata, isConnected: bool)

  /** `getDiscovered`: one entry per discovered name, in discovery order. */
  function GetDiscovered(state: State): (r: seq<DiscoveredRobot>)
    ensures |r| == |state.connection.discovered|
    ensures forall k :: 0 <= k < |r| ==>
      var name := state.connection.discovered[k];
      && (r[k].isConnected <==> state.connection.connectedTo == Some(name))
      && (name in state.connection.discoveredByName ==> r[k].metadata == state.connection.discoveredByName[name])
      && (name !in state.connection.discoveredByName ==> r[k].metadata == map[])
  {
    var c := state.connection;
    seq(|c.discovered|, k requires 0 <= k < |c.discovered| =>
      var name := c.discovered[k];
      DiscoveredRobot(
        if name in c.discoveredByName then c.discoveredByName[name] else map[],
        c.connectedTo == Some(name)))
  }

  /** When discovered names are distinct, at most one discovered robot is marked connected. */
  lemma AtMostOneConnected(state: State, i: nat, j: nat)
    requires forall a, b :: 0 <= a < b < |state.connection.discovered| ==> state.connection.discovered[a] != state.connection.discovered[b]
    requires i < j < |state.connection.discovered|
    ensures !(GetDiscovered(state)[i].isConnected && GetDiscovered(state)[j].isConnected)
  {
  }

  datatype ConnectionStatus = Connecting | Connected | Disconnecting | Disconnected

  /** `getConnectionStatus`: the first matching rule of four decides the status. */
  function GetConnectionStatus(state: State): (r: ConnectionStatus)
    ensures var hasTarget := StringTruthy(state.connection.connectedTo);
      var connecting := state.connection.connectInProgress;
      var disconnecting := state.connection.disconnectInProgress;
      && (r == Connecting <==> !hasTarget && connecting)
      && (r == Connected <==> hasTarget && !disconnecting)
      && (r == Disconnecting <==> hasTarget && disconnecting)
      && (r == Disconnected <==> !hasTarget && !connecting)
  {
    var c := state.connection;
    var hasTarget := StringTruthy(c.connectedTo);
    if !hasTarget && c.connectInProgress then Connecting
    else if hasTarget && !c.disconnectInProgress then Connected
    else if hasTarget && c.disconnectInProgress then Disconnecting
    else Disconnected
  }

  /** The status depends only on whether there is a target and on the request flag that matters for it. */
  lemma ConnectionStatusIgnoresIrrelevantFlag(s1: State, s2: State)
    requires StringTruthy(s1.connection.connectedTo) == StringTruthy(s2.connection.connectedTo)
    requires StringTruthy(s1.connection.connectedTo) ==> s1.connection.disconnectInProgress == s2.connection.disconnectInProgress
    requires !StringTruthy(s1.connection.connectedTo) ==> s1.connection.connectInProgress == s2.connection.connectInProgress
    ensures GetConnectionStatus(s1) == GetConnectionStatus(s2)
  {
  }
}
