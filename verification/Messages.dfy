/** The protocol messages of proto/agent.proto that the other modules exchange. */
module Messages {
  import opened GoInts

  datatype Assignment = Assignment(
    assignmentId: GoString,
    checkType: GoString,
    target: GoString,
    parameters: seq<byte>,
    intervalSeconds: int32,
    phaseMs: int32,
    timeoutMs: int32)

  datatype AssignmentSet = AssignmentSet(
    version: int64,
    full: bool,
    upserts: seq<Assignment>,
    removes: seq<GoString>)

  datatype SlotResult = SlotResult(
    assignmentId: GoString,
    slot: int64,
    outcome: int32,
    measurements: seq<byte>,
    startedAt: int64,
    completedAt: int64,
    signature: seq<byte>)

  datatype ResultSubmit = ResultSubmit(
    taskId: GoString,
    checkId: GoString,
    outcome: int32,
    measurements: seq<byte>,
    startedAt: int64,
    completedAt: int64,
    signature: seq<byte>)
}
