/**
 * Domain records of the video-capture service (recordings, cameras, nodes)
 * and the machine integer widths the service computes with.
 */
module Models {
  import opened Wrappers

  /** 2^64: one past the largest `std::uint64_t`. */
  const UINT64_LIMIT: int := 0x1_0000_0000_0000_0000

  /** An unsigned 64-bit value (`std::uint64_t`, `std::size_t`). */
  type U64 = x: int | 0 <= x < UINT64_LIMIT

  const INT64_MIN: int := -0x8000_0000_0000_0000
  const INT64_MAX: int := 0x7FFF_FFFF_FFFF_FFFF

  /** A signed 64-bit value (`std::int64_t`). */
  type I64 = x: int | INT64_MIN <= x <= INT64_MAX

  /** Reduces an unsigned computation modulo 2^64, as C++ unsigned arithmetic does. */
  function WrapU64(x: int): (r: U64)
    ensures 0 <= x < UINT64_LIMIT ==> r == x
    ensures x == -1 ==> r == UINT64_LIMIT - 1
  {
    x % UINT64_LIMIT
  }

  /** Negating a non-zero 64-bit value wraps to its two's-complement image. */
  lemma {:induction false} WrapNegative(n: nat)
    requires 0 < n < UINT64_LIMIT
    ensures WrapU64(-(n as int)) == UINT64_LIMIT - n
  {
  }

  /** A stored recording: one completed media segment of one camera. */
  datatype Recording = Recording(
    recordId: int,
    userId: int,
    unixTime: int,
    mediaFile: string,
    alertId: Option<int>,
    deviceId: int,
    timeValue: string,
    dateValue: string,
    mandatoryMark: Option<int>)

  /** A recording that has not been persisted yet: every field but the identity. */
  datatype CreateRecordingCommand = CreateRecordingCommand(
    userId: int,
    unixTime: int,
    mediaFile: string,
    alertId: Option<int>,
    deviceId: int,
    timeValue: string,
    dateValue: string,
    mandatoryMark: Option<int>)

  /** Recordings of one camera whose capture time lies in `[fromUnix, toUnix]`. */
  datatype RecordingQuery = RecordingQuery(cameraId: int, fromUnix: int, toUnix: int)

  /** The persisted form of `command` under the identity `id`. */
  function ToRecording(id: int, command: CreateRecordingCommand): Recording {
    Recording(id, command.userId, command.unixTime, command.mediaFile, command.alertId,
              command.deviceId, command.timeValue, command.dateValue, command.mandatoryMark)
  }

  /** The command a recording was created from (its identity dropped). */
  function ToCommand(recording: Recording): CreateRecordingCommand {
    CreateRecordingCommand(recording.userId, recording.unixTime, recording.mediaFile,
                           recording.alertId, recording.deviceId, recording.timeValue,
                           recording.dateValue, recording.mandatoryMark)
  }

  /** A registered camera (a row of the devices table). */
  datatype Camera = Camera(
    deviceId: int,
    cameraType: int,
    addDate: string,
    caption: string,
    rtspUrl: string,
    assignedNodeId: Option<string>,
    status: string)

  /** A camera to register; `status` defaults to "active" in the system. */
  datatype RegisterCameraCommand = RegisterCameraCommand(
    cameraType: int,
    caption: string,
    rtspUrl: string,
    assignedNodeId: Option<string>,
    status: string)

  /** A processing node; read-only for this service. */
  datatype Node = Node(nodeId: string, caption: string, status: string)
}
