/**
 * `getLabware` and the derivations over it: which labware is still
 * unconfirmed, which tipracks are, which labware comes next, and whether
 * everything is confirmed.
 */
module Labware {
  import opened Wrappers
  import opened RobotState
  import opened Sequences

  /** The status a slot has when the calibration state records none. */
  const UNCONFIRMED: string := "unconfirmed"

  /** A slot's record: `{slot}` alone when it is empty, else the labware with its calibration status and confirmed flag. */
  datatype LabwareRecord =
    | EmptySlot(slot: Slot)
    | Placed(labware: ProtocolLabware, calibration: string, confirmed: bool)
  {
    /** The record's `type` field is truthy. */
    predicate Typed()
    {
      Placed? && StringTruthy(labware.labwareType)
    }

    /** The record's `isTiprack` field is truthy. */
    predicate Tiprack()
    {
      Placed? && BoolTruthy(labware.isTiprack)
    }
  }

  /** The record for one slot. */
  function LabwareRecordFor(state: State, slot: Slot): LabwareRecord
  {
    var bySlot := state.session.protocolLabwareBySlot;
    var statusBySlot := state.calibration.labwareBySlot;
    var confirmedBySlot := state.calibration.confirmedBySlot;
    if slot !in bySlot then EmptySlot(slot)
    else Placed(
      bySlot[slot],
      if slot in statusBySlot && statusBySlot[slot] != "" then statusBySlot[slot] else UNCONFIRMED,
      slot in confirmedBySlot && confirmedBySlot[slot])
  }

  /** `getLabware`: exactly one record per slot of `slots` (DECK_SLOTS), in that order. */
  function GetLabware(slots: seq<Slot>, state: State): (r: seq<LabwareRecord>)
    ensures |r| == |slots|
    ensures forall k :: 0 <= k < |r| ==>
      var slot := slots[k];
      && (r[k].EmptySlot? <==> slot !in state.session.protocolLabwareBySlot)
      && (r[k].EmptySlot? ==> r[k].slot == slot)
      && (r[k].Placed? ==>
            && r[k].labware == state.session.protocolLabwareBySlot[slot]
            && (r[k].calibration == UNCONFIRMED <==>
                  slot !in state.calibration.labwareBySlot
                  || state.calibration.labwareBySlot[slot] in {"", UNCONFIRMED})
            && (r[k].calibration != UNCONFIRMED ==> r[k].calibration == state.calibration.labwareBySlot[slot])
            && (r[k].confirmed <==> slot in state.calibration.confirmedBySlot && state.calibration.confirmedBySlot[slot]))
  {
    seq(|slots|, k requires 0 <= k < |slots| => LabwareRecordFor(state, slots[k]))
  }

  predicate IsUnconfirmed(lw: LabwareRecord) { lw.Typed() && !lw.confirmed }

  predicate IsTypedTiprack(lw: LabwareRecord) { lw.Typed() && lw.Tiprack() }

  predicate IsUnconfirmedTiprack(lw: LabwareRecord) { IsUnconfirmed(lw) && IsTypedTiprack(lw) }

  /** `getUnconfirmedLabware`: the typed, unconfirmed records, in slot order. */
  function GetUnconfirmedLabware(slots: seq<Slot>, state: State): (r: seq<LabwareRecord>)
    ensures IsSubsequence(r, GetLabware(slots, state))
    ensures forall k :: 0 <= k < |r| ==> r[k].Placed? && StringTruthy(r[k].labware.labwareType) && !r[k].confirmed
    ensures forall k :: 0 <= k < |slots| && IsUnconfirmed(GetLabware(slots, state)[k]) ==> GetLabware(slots, state)[k] in r
    ensures forall x {:trigger multiset(r)[x]} :: multiset(r)[x] == if IsUnconfirmed(x) then multiset(GetLabware(slots, state))[x] else 0
  {
    Filter(GetLabware(slots, state), IsUnconfirmed)
  }

  /** `getUnconfirmedTipracks`: the unconfirmed records that are tipracks, in slot order. */
  function GetUnconfirmedTipracks(slots: seq<Slot>, state: State): (r: seq<LabwareRecord>)
    ensures IsSubsequence(r, GetUnconfirmedLabware(slots, state))
    ensures IsSubsequence(r, GetLabware(slots, state))
    ensures r == Filter(GetLabware(slots, state), IsUnconfirmedTiprack)
  {
    var all := GetLabware(slots, state);
    var unconfirmed := GetUnconfirmedLabware(slots, state);
    var r := Filter(unconfirmed, IsTypedTiprack);
    FilterFilter(all, IsUnconfirmed, IsTypedTiprack, IsUnconfirmedTiprack);
    SubsequenceTransitive(r, unconfirmed, all);
    r
  }

  /**
   * `getNextLabware`: the first unconfirmed tiprack in slot order, else the
   * first unconfirmed labware in slot order, else nothing.
   */
  function GetNextLabware(slots: seq<Slot>, state: State): (r: Option<LabwareRecord>)
    ensures var all := GetLabware(slots, state);
      && ((exists k :: 0 <= k < |all| && IsUnconfirmedTiprack(all[k])) ==>
            exists k :: 0 <= k < |all| && IsUnconfirmedTiprack(all[k]) && r == Some(all[k])
              && forall j :: 0 <= j < k ==> !IsUnconfirmedTiprack(all[j]))
      && ((forall k :: 0 <= k < |all| ==> !IsUnconfirmedTiprack(all[k])) ==>
            if exists k :: 0 <= k < |all| && IsUnconfirmed(all[k]) then
              exists k :: 0 <= k < |all| && IsUnconfirmed(all[k]) && r == Some(all[k])
                && forall j :: 0 <= j < k ==> !IsUnconfirmed(all[j])
            else r == None)
  {
    var tipracks := GetUnconfirmedTipracks(slots, state);
    var labware := GetUnconfirmedLabware(slots, state);
    if |tipracks| > 0 then Some(tipracks[0])
    else if |labware| > 0 then Some(labware[0])
    else None
  }

  /** `getTipracksConfirmed`: no unconfirmed tiprack remains. */
  function GetTipracksConfirmed(slots: seq<Slot>, state: State): (r: bool)
    ensures r <==> forall k :: 0 <= k < |slots| ==> !IsUnconfirmedTiprack(GetLabware(slots, state)[k])
  {
    |GetUnconfirmedTipracks(slots, state)| == 0
  }

  /** `getLabwareConfirmed`: every slot is empty, holds untyped labware, or is confirmed. */
  function GetLabwareConfirmed(slots: seq<Slot>, state: State): (r: bool)
    ensures r <==> forall k :: 0 <= k < |slots| ==>
      var slot := slots[k];
      slot in state.session.protocolLabwareBySlot && StringTruthy(state.session.protocolLabwareBySlot[slot].labwareType) ==>
        slot in state.calibration.confirmedBySlot && state.calibration.confirmedBySlot[slot]
  {
    var all := GetLabware(slots, state);
    assert forall k :: 0 <= k < |slots| ==> (IsUnconfirmed(all[k]) <==>
      slots[k] in state.session.protocolLabwareBySlot
      && StringTruthy(state.session.protocolLabwareBySlot[slots[k]].labwareType)
      && !(slots[k] in state.calibration.confirmedBySlot && state.calibration.confirmedBySlot[slots[k]]));
    |GetUnconfirmedLabware(slots, state)| == 0
  }

  /** Once all labware is confirmed, so are all tipracks; and there is a next labware exactly until then. */
  lemma ConfirmationOrder(slots: seq<Slot>, state: State)
    ensures GetLabwareConfirmed(slots, state) ==> GetTipracksConfirmed(slots, state)
    ensures GetNextLabware(slots, state).None? <==> GetLabwareConfirmed(slots, state)
    ensures GetNextLabware(slots, state).Some? ==> IsUnconfirmed(GetNextLabware(slots, state).value)
  {
    SubsequenceLength(GetUnconfirmedTipracks(slots, state), GetUnconfirmedLabware(slots, state));
  }
}
