/** The completion protocol of DefaultActorInfoHandler as pure functions.

    For each handler, `…Done` is its `on_done` callback: given the reply
    payload so far and a completion, the new payload and the events it
    produces.  `…Run` is one whole request: the submission to the store,
    the handler's own call of `on_done` when the submission fails at once,
    and the store's later callback, if the store makes one.  The store is
    not trusted here to keep its contract: properties.dfy states what each
    request does under the contract and what happens without it. */
module ActorProtocol {
  import opened ActorTypes
  import opened ActorEvents

  /** The reply payload after some steps, and the events those steps produced. */
  datatype Outcome = Outcome(reply: ReplyData, events: seq<Event>)

  /** Nothing happens: the payload stays, no event. */
  function Quiet(reply: ReplyData): Outcome {
    Outcome(reply, [])
  }

  /** One store-backed request: the submission `call`, then what the
      synchronous failure path did, then what the store's callback did. */
  function Request(call: Event, sync: Outcome, async: Outcome): Outcome {
    Outcome(async.reply, [call] + sync.events + async.events)
  }

  /** A store completion whose status is OK always carries a result (the
      RAY_DCHECK in the checkpoint handlers). */
  predicate OkCarriesResult<T>(store: StoreReply<Option<T>>) {
    store.callback.Some? && store.callback.value.status.OK? ==> store.callback.value.result.Some?
  }

  // ---------------------------------------------------------------------
  // HandleCreateActor

  /** The actor manager is asked to register the actor; a rejection is
      replied at once, acceptance is replied OK when the success callback
      runs. */
  function CreateActorRun(request: CreateActorRequest, manager: ManagerReply, reply: ReplyData): Outcome
    requires request.taskSpec.taskType == ActorCreationTask
  {
    var sync := if manager.submit.OK? then [] else [SendReply(manager.submit, reply)];
    var async := if manager.created then [SendReply(OK, reply)] else [];
    Outcome(reply, [ManagerCall(request)] + sync + async)
  }

  // ---------------------------------------------------------------------
  // HandleGetActorInfo

  /** Copy a found record into the reply; reply OK whatever the status. */
  function GetActorInfoDone(reply: ReplyData, status: Status, result: Option<ActorTableData>): (o: Outcome)
    ensures Replies(o.events) == 1 && Publishes(o.events) == 0
  {
    var data := if result.Some? then reply.(actorTableData := result) else reply;
    Outcome(data, [SendReply(OK, data)])
  }

  function GetActorInfoRun(request: GetActorInfoRequest, store: StoreReply<Option<ActorTableData>>,
                           reply: ReplyData): Outcome
  {
    var sync := if store.submit.OK? then Quiet(reply) else GetActorInfoDone(reply, store.submit, None);
    var async := match store.callback
      case None => Quiet(sync.reply)
      case Some(c) => GetActorInfoDone(sync.reply, c.status, c.result);
    Request(StoreCall(Get(ActorId(request.actorId))), sync, async)
  }

  // ---------------------------------------------------------------------
  // HandleGetAllActorInfo

  /** Append every returned record, in order; reply OK whatever the status. */
  function GetAllActorInfoDone(reply: ReplyData, status: Status, result: seq<ActorTableData>): (o: Outcome)
    ensures Replies(o.events) == 1 && Publishes(o.events) == 0
  {
    var data := reply.(actorTableDataList := reply.actorTableDataList + result);
    Outcome(data, [SendReply(OK, data)])
  }

  function GetAllActorInfoRun(request: GetAllActorInfoRequest, store: StoreReply<seq<ActorTableData>>,
                              reply: ReplyData): Outcome
  {
    var sync := if store.submit.OK? then Quiet(reply) else GetAllActorInfoDone(reply, store.submit, []);
    var async := match store.callback
      case None => Quiet(sync.reply)
      case Some(c) => GetAllActorInfoDone(sync.reply, c.status, c.result);
    Request(StoreCall(GetAll), sync, async)
  }

  // ---------------------------------------------------------------------
  // HandleGetNamedActorInfo

  function NotFoundMessage(name: string): string {
    "Actor with name '" + name + "' was not found."
  }

  /** Copy the record only on OK with a result; reply with the status as given. */
  function GetNamedActorInfoDone(reply: ReplyData, status: Status, result: Option<ActorTableData>): (o: Outcome)
    ensures Replies(o.events) == 1 && Publishes(o.events) == 0
  {
    var data := if status.OK? && result.Some? then reply.(actorTableData := result) else reply;
    Outcome(data, [SendReply(status, data)])
  }

  /** `nameIndex` is GcsActorManager::GetActorIDByName, None for the nil id. */
  function GetNamedActorInfoRun(request: GetNamedActorInfoRequest, nameIndex: string -> Option<ActorId>,
                                store: StoreReply<Option<ActorTableData>>, reply: ReplyData): Outcome
  {
    match nameIndex(request.name)
    case None =>
      GetNamedActorInfoDone(reply, Error(NotFound, NotFoundMessage(request.name)), None)
    case Some(actorId) =>
      var sync := if store.submit.OK? then Quiet(reply) else GetNamedActorInfoDone(reply, store.submit, None);
      var async := match store.callback
        case None => Quiet(sync.reply)
        case Some(c) => GetNamedActorInfoDone(sync.reply, c.status, c.result);
      Request(StoreCall(Get(actorId)), sync, async)
  }

  // ---------------------------------------------------------------------
  // HandleRegisterActorInfo and HandleUpdateActorInfo

  /** The on_done of both mutations: on OK publish the record's serialized
      copy on the actor channel under the actor id's hex form, then reply;
      otherwise only reply.  The reply carries the status as given. */
  function ActorMutationDone(codec: Codec, actorId: ActorId, data: ActorTableData,
                             reply: ReplyData, status: Status): (o: Outcome)
    ensures o.reply == reply
    ensures Replies(o.events) == 1
    ensures Publishes(o.events) == if status.OK? then 1 else 0
  {
    if status.OK? then
      var events := [Publish(ActorChannel, codec.hex(actorId), codec.serialize(data)), SendReply(status, reply)];
      assert events[1..] == [events[1]];
      assert Replies(events[1..]) == 1 && Publishes(events[1..]) == 0;
      Outcome(reply, events)
    else
      Outcome(reply, [SendReply(status, reply)])
  }

  /** Register keys on the id embedded in the record. */
  function RegisterActorInfoRun(codec: Codec, request: RegisterActorInfoRequest, store: StoreReply<()>,
                                reply: ReplyData): Outcome
  {
    var actorId := ActorId(request.actorTableData.actorId);
    var data := request.actorTableData;
    var sync := if store.submit.OK? then Quiet(reply) else ActorMutationDone(codec, actorId, data, reply, store.submit);
    var async := match store.callback
      case None => Quiet(sync.reply)
      case Some(c) => ActorMutationDone(codec, actorId, data, sync.reply, c.status);
    Request(StoreCall(Register(data)), sync, async)
  }

  /** Update keys on the request's own actor id field. */
  function UpdateActorInfoRun(codec: Codec, request: UpdateActorInfoRequest, store: StoreReply<()>,
                              reply: ReplyData): Outcome
  {
    var actorId := ActorId(request.actorId);
    var data := request.actorTableData;
    var sync := if store.submit.OK? then Quiet(reply) else ActorMutationDone(codec, actorId, data, reply, store.submit);
    var async := match store.callback
      case None => Quiet(sync.reply)
      case Some(c) => ActorMutationDone(codec, actorId, data, sync.reply, c.status);
    Request(StoreCall(Update(actorId, data)), sync, async)
  }

  // ---------------------------------------------------------------------
  // HandleAddActorCheckpoint

  /** Reply with the status as given; nothing is published. */
  function AddActorCheckpointDone(reply: ReplyData, status: Status): (o: Outcome)
    ensures o.reply == reply && Replies(o.events) == 1 && Publishes(o.events) == 0
  {
    Outcome(reply, [SendReply(status, reply)])
  }

  function AddActorCheckpointRun(request: AddActorCheckpointRequest, store: StoreReply<()>,
                                 reply: ReplyData): Outcome
  {
    var sync := if store.submit.OK? then Quiet(reply) else AddActorCheckpointDone(reply, store.submit);
    var async := match store.callback
      case None => Quiet(sync.reply)
      case Some(c) => AddActorCheckpointDone(sync.reply, c.status);
    Request(StoreCall(AddCheckpoint(request.checkpointData)), sync, async)
  }

  // ---------------------------------------------------------------------
  // HandleGetActorCheckpoint

  /** On OK copy the (necessarily present) checkpoint; reply with the status. */
  function GetActorCheckpointDone(reply: ReplyData, status: Status, result: Option<ActorCheckpointData>): (o: Outcome)
    requires status.OK? ==> result.Some?
    ensures Replies(o.events) == 1 && Publishes(o.events) == 0
  {
    var data := if status.OK? then reply.(checkpointData := result) else reply;
    Outcome(data, [SendReply(status, data)])
  }

  function GetActorCheckpointRun(request: GetActorCheckpointRequest, store: StoreReply<Option<ActorCheckpointData>>,
                                 reply: ReplyData): Outcome
    requires OkCarriesResult(store)
  {
    var sync := if store.submit.OK? then Quiet(reply) else GetActorCheckpointDone(reply, store.submit, None);
    var async := match store.callback
      case None => Quiet(sync.reply)
      case Some(c) => GetActorCheckpointDone(sync.reply, c.status, c.result);
    Request(StoreCall(GetCheckpoint(CheckpointId(request.checkpointId), ActorId(request.actorId))), sync, async)
  }

  // ---------------------------------------------------------------------
  // HandleGetActorCheckpointID

  /** On OK copy the (necessarily present) id list; reply with the status. */
  function GetActorCheckpointIDDone(reply: ReplyData, status: Status, result: Option<ActorCheckpointIdData>): (o: Outcome)
    requires status.OK? ==> result.Some?
    ensures Replies(o.events) == 1 && Publishes(o.events) == 0
  {
    var data := if status.OK? then reply.(checkpointIdData := result) else reply;
    Outcome(data, [SendReply(status, data)])
  }

  function GetActorCheckpointIDRun(request: GetActorCheckpointIDRequest,
                                   store: StoreReply<Option<ActorCheckpointIdData>>, reply: ReplyData): Outcome
    requires OkCarriesResult(store)
  {
    var sync := if store.submit.OK? then Quiet(reply) else GetActorCheckpointIDDone(reply, store.submit, None);
    var async := match store.callback
      case None => Quiet(sync.reply)
      case Some(c) => GetActorCheckpointIDDone(sync.reply, c.status, c.result);
    Request(StoreCall(GetCheckpointID(ActorId(request.actorId))), sync, async)
  }
}
