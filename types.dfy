/** Values exchanged by the actor info handler of the GCS server: identifiers,
    the records it stores and reads back, the status it replies with and the
    nine request messages.  Protobuf records are opaque: only the fields the
    handler itself reads are spelled out, the rest is `fields`. */
module ActorTypes {

  type Bytes = seq<bv8>

  datatype Option<+T> = None | Some(value: T)

  /** Error codes of a non-OK status.  The handler creates only NotFound;
      every other code reaches it from the store or the actor manager. */
  datatype StatusCode =
    | NotFound
    | KeyError
    | Invalid
    | IOError
    | RedisError
    | TimedOut
    | UnknownError

  datatype Status = OK | Error(code: StatusCode, message: string)

  /** ActorID::FromBinary: an actor id is the binary string it was made from. */
  datatype ActorId = ActorId(binary: Bytes)

  /** ActorCheckpointID::FromBinary. */
  datatype CheckpointId = CheckpointId(binary: Bytes)

  /** ActorTableData: the actor's record, carrying its own id. */
  datatype ActorTableData = ActorTableData(actorId: Bytes, fields: Bytes)

  /** ActorCheckpointData: one checkpoint, carrying the ids it belongs to. */
  datatype ActorCheckpointData = ActorCheckpointData(actorId: Bytes, checkpointId: Bytes, fields: Bytes)

  /** ActorCheckpointIdData: the checkpoint ids known for one actor. */
  datatype ActorCheckpointIdData = ActorCheckpointIdData(actorId: Bytes, fields: Bytes)

  datatype TaskType = NormalTask | ActorCreationTask | ActorTask | DriverTask

  /** The part of a TaskSpec the handler reads: its type and, for an actor
      creation task, the id of the actor to create. */
  datatype TaskSpec = TaskSpec(taskType: TaskType, actorCreationActorId: Bytes, fields: Bytes)

  datatype CreateActorRequest = CreateActorRequest(taskSpec: TaskSpec)
  datatype GetActorInfoRequest = GetActorInfoRequest(actorId: Bytes)
  datatype GetAllActorInfoRequest = GetAllActorInfoRequest
  datatype GetNamedActorInfoRequest = GetNamedActorInfoRequest(name: string)
  datatype RegisterActorInfoRequest = RegisterActorInfoRequest(actorTableData: ActorTableData)
  datatype UpdateActorInfoRequest = UpdateActorInfoRequest(actorId: Bytes, actorTableData: ActorTableData)
  datatype AddActorCheckpointRequest = AddActorCheckpointRequest(checkpointData: ActorCheckpointData)
  datatype GetActorCheckpointRequest = GetActorCheckpointRequest(actorId: Bytes, checkpointId: Bytes)
  datatype GetActorCheckpointIDRequest = GetActorCheckpointIDRequest(actorId: Bytes)
}
