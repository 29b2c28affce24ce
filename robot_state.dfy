/**
 * The state snapshot that the robot selectors read: the `calibration`,
 * `connection` and `session` slices kept by the robot reducers, with
 * JavaScript's truthiness tests written out for the field types used.
 */
module RobotState {
  import opened Wrappers

  type CommandId = int
  /** A timestamp in milliseconds (JavaScript number, modelled as an integer). */
  type Timestamp = int
  /** An instrument mount identifier (an element of INSTRUMENT_AXES). */
  type Mount = string
  /** A deck slot identifier (an element of DECK_SLOTS). */
  type Slot = string

  // ---- JavaScript truthiness ----

  /** A nullable string is truthy when present and non-empty. */
  predicate StringTruthy(s: Option<string>) { s.Some? && s.value != "" }

  /** A nullable number is truthy when present and not zero. */
  predicate NumberTruthy(n: Option<int>) { n.Some? && n.value != 0 }

  /** A nullable boolean is truthy when present and true. */
  predicate BoolTruthy(b: Option<bool>) { b == Some(true) }

  // ---- connection slice ----

  /** The metadata a discovered robot carries, kept as an opaque field map. */
  type RobotMetadata = map<string, string>

  datatype ConnectionState = ConnectionState(
    discovered: seq<string>,
    discoveredByName: map<string, RobotMetadata>,
    connectedTo: Option<string>,
    connectInProgress: bool,
    disconnectInProgress: bool,
    isScanning: bool)

  // ---- session slice ----

  /** The session `state` field; `NotLoaded` is the empty string. */
  datatype SessionStatus = NotLoaded | Loaded | Running | Paused | Error | Finished | Stopped

  /** One protocol command as stored in `protocolCommandsById`. */
  datatype Command = Command(description: string, handledAt: Option<Timestamp>, children: seq<CommandId>)

  /** A protocol instrument as stored in `protocolInstrumentsByAxis`. */
  datatype ProtocolInstrument = ProtocolInstrument(axis: Mount, name: Option<string>, channels: Option<int>)

  /** A protocol labware as stored in `protocolLabwareBySlot`. */
  datatype ProtocolLabware = ProtocolLabware(slot: Slot, labwareType: Option<string>, isTiprack: Option<bool>)

  datatype SessionState = SessionState(
    uploadInProgress: bool,
    uploadError: Option<string>,
    name: string,
    status: SessionStatus,
    protocolCommands: seq<CommandId>,
    protocolCommandsById: map<CommandId, Command>,
    runTime: Option<Timestamp>,
    protocolInstrumentsByAxis: map<Mount, ProtocolInstrument>,
    protocolLabwareBySlot: map<Slot, ProtocolLabware>)

  // ---- calibration slice ----

  /** The `type` of the active calibration request; `OtherRequest` stands for every other value. */
  datatype CalibrationRequestType = MoveToFront | ProbeTip | OtherRequest

  datatype CalibrationRequest = CalibrationRequest(
    mount: string,
    requestType: CalibrationRequestType,
    inProgress: bool,
    error: Option<string>)

  datatype CalibrationState = CalibrationState(
    probedByAxis: map<Mount, bool>,
    calibrationRequest: CalibrationRequest,
    labwareBySlot: map<Slot, string>,
    confirmedBySlot: map<Slot, bool>,
    deckPopulated: bool,
    jogInProgress: bool,
    updateOffsetInProgress: bool,
    jogDistance: int)

  /** The `robot` part of the application state. */
  datatype State = State(calibration: CalibrationState, connection: ConnectionState, session: SessionState)
}
