/**
 * `getInstruments`, `getCalibratorMount` and `getInstrumentsCalibrated`:
 * one record per instrument mount, with the calibration phase derived from
 * the active calibration request.
 */
module Instruments {
  import opened Wrappers
  import opened RobotState
  import opened Sequences

  datatype CalibrationPhase = Unprobed | PreparingToProbe | ReadyToProbe | Probing | Probed

  /** A mount's record: `{axis}` alone when no named instrument is there, else the instrument with its phase and probed flag. */
  datatype InstrumentRecord =
    | Unloaded(axis: Mount)
    | Mounted(instrument: ProtocolInstrument, calibration: CalibrationPhase, probed: bool)
  {
    /** The record's `axis` field: the mount, or the instrument's own axis. */
    function Axis(): Mount
    {
      match this
      case Unloaded(axis) => axis
      case Mounted(instrument, _, _) => instrument.axis
    }

    /** The record's `channels` field (absent on a bare record). */
    function Channels(): Option<int>
    {
      if Mounted? then instrument.channels else None
    }

    /** The record's `name` field is truthy. */
    predicate Named()
    {
      Mounted? && StringTruthy(instrument.name)
    }
  }

  /**
   * The phase of the instrument on `mount`: unprobed unless the request is
   * for this mount, carries no error and is a move-to-front or probe-tip
   * request; then the request's kind picks the pair of phases and
   * `inProgress` picks within it.
   */
  function CalibrationPhaseOf(request: CalibrationRequest, mount: Mount): (r: CalibrationPhase)
    ensures r != Unprobed <==> request.mount == mount && request.error.None? && request.requestType != OtherRequest
    ensures (r == PreparingToProbe || r == Probing) <==> r != Unprobed && request.inProgress
    ensures (r == PreparingToProbe || r == ReadyToProbe) <==> r != Unprobed && request.requestType == MoveToFront
    ensures (r == Probing || r == Probed) <==> r != Unprobed && request.requestType == ProbeTip
  {
    if request.mount == mount && request.error.None? then
      match request.requestType
      case MoveToFront => if request.inProgress then PreparingToProbe else ReadyToProbe
      case ProbeTip => if request.inProgress then Probing else Probed
      case OtherRequest => Unprobed
    else Unprobed
  }

  /** The record for one mount. */
  function InstrumentRecordFor(state: State, mount: Mount): InstrumentRecord
  {
    var byAxis := state.session.protocolInstrumentsByAxis;
    var probedByAxis := state.calibration.probedByAxis;
    if mount !in byAxis || !StringTruthy(byAxis[mount].name) then Unloaded(mount)
    else Mounted(
      byAxis[mount],
      CalibrationPhaseOf(state.calibration.calibrationRequest, mount),
      mount in probedByAxis && probedByAxis[mount])
  }

  /** `getInstruments`: exactly one record per mount of `axes` (INSTRUMENT_AXES), in that order. */
  function GetInstruments(axes: seq<Mount>, state: State): (r: seq<InstrumentRecord>)
    ensures |r| == |axes|
    ensures forall k :: 0 <= k < |r| ==>
      var byAxis := state.session.protocolInstrumentsByAxis;
      var mount := axes[k];
      && (r[k].Unloaded? <==> mount !in byAxis || !StringTruthy(byAxis[mount].name))
      && (r[k].Unloaded? ==> r[k].axis == mount)
      && (r[k].Mounted? ==>
            && r[k].instrument == byAxis[mount]
            && r[k].calibration == CalibrationPhaseOf(state.calibration.calibrationRequest, mount)
            && (r[k].probed <==> mount in state.calibration.probedByAxis && state.calibration.probedByAxis[mount]))
  {
    seq(|axes|, k requires 0 <= k < |axes| => InstrumentRecordFor(state, axes[k]))
  }

  /** With distinct mounts, only the requested mount's record can leave the unprobed phase. */
  lemma OnlyRequestedMountCalibrates(axes: seq<Mount>, state: State, i: nat, j: nat)
    requires forall a, b :: 0 <= a < b < |axes| ==> axes[a] != axes[b]
    requires i < |axes| && j < |axes| && i != j
    ensures var r := GetInstruments(axes, state);
      !(r[i].Mounted? && r[i].calibration != Unprobed && r[j].Mounted? && r[j].calibration != Unprobed)
  {
  }

  predicate IsSingleChannel(i: InstrumentRecord) { NumberTruthy(i.Channels()) && i.Channels().value == 1 }

  predicate IsMultiChannel(i: InstrumentRecord) { NumberTruthy(i.Channels()) && i.Channels().value > 1 }

  /**
   * The mount to calibrate deck labware with: the first single-channel
   * instrument's axis, else the first multi-channel instrument's, else "".
   */
  function CalibratorMount(instruments: seq<InstrumentRecord>): (r: string)
    ensures (exists k :: 0 <= k < |instruments| && IsSingleChannel(instruments[k])) ==>
      exists k :: 0 <= k < |instruments| && IsSingleChannel(instruments[k]) && r == instruments[k].Axis()
        && forall j :: 0 <= j < k ==> !IsSingleChannel(instruments[j])
    ensures ((forall k :: 0 <= k < |instruments| ==> !IsSingleChannel(instruments[k]))
             && (exists k :: 0 <= k < |instruments| && IsMultiChannel(instruments[k]))) ==>
      exists k :: 0 <= k < |instruments| && IsMultiChannel(instruments[k]) && r == instruments[k].Axis()
        && forall j :: 0 <= j < k ==> !IsMultiChannel(instruments[j])
    ensures (forall k :: 0 <= k < |instruments| ==> !IsSingleChannel(instruments[k]) && !IsMultiChannel(instruments[k])) ==>
      r == ""
  {
    match FindFirst(instruments, IsSingleChannel)
    case Some(k) => instruments[k].Axis()
    case None =>
      match FindFirst(instruments, IsMultiChannel)
      case Some(k) => instruments[k].Axis()
      case None => ""
  }

  /** `getCalibratorMount`: "" or the axis of a named instrument on one of the mounts that has at least one channel. */
  function GetCalibratorMount(axes: seq<Mount>, state: State): (r: string)
    ensures r == "" || exists k :: (0 <= k < |axes|
      && axes[k] in state.session.protocolInstrumentsByAxis
      && var instrument := state.session.protocolInstrumentsByAxis[axes[k]];
         StringTruthy(instrument.name) && r == instrument.axis
         && instrument.channels.Some? && instrument.channels.value >= 1)
  {
    var instruments := GetInstruments(axes, state);
    var r := CalibratorMount(instruments);
    assert r == "" || exists k :: (0 <= k < |instruments|
      && (IsSingleChannel(instruments[k]) || IsMultiChannel(instruments[k])) && r == instruments[k].Axis());
    r
  }

  /** `getInstrumentsCalibrated`'s test: every record is unnamed or probed. */
  predicate AllCalibrated(instruments: seq<InstrumentRecord>)
  {
    forall k :: 0 <= k < |instruments| ==> !instruments[k].Named() || instruments[k].probed
  }

  /** `getInstrumentsCalibrated`: every mount either has no named instrument or is marked probed. */
  function GetInstrumentsCalibrated(axes: seq<Mount>, state: State): (r: bool)
    ensures r <==> forall k :: 0 <= k < |axes| ==>
      var byAxis := state.session.protocolInstrumentsByAxis;
      axes[k] in byAxis && StringTruthy(byAxis[axes[k]].name) ==>
        axes[k] in state.calibration.probedByAxis && state.calibration.probedByAxis[axes[k]]
  {
    AllCalibrated(GetInstruments(axes, state))
  }
}
