/** DefaultActorInfoHandler as the imperative code it is: each handler fills
    the caller's reply object in place and appends to the log of what it
    made observable.  Each `on_done` lambda is a method that both paths call:
    the handler itself when the submission fails at once, and the store's
    callback later.  The store and the actor manager are given as the answers
    they make (StoreReply, ManagerReply); their callback runs as the last step
    of the method.  Every method is proved against its function in
    protocol.dfy, whose properties are proved in properties.dfy. */
module ActorInfoHandler {
  import opened ActorTypes
  import opened ActorEvents
  import opened ActorProtocol

  /** The reply message, owned by the caller and filled in by the handler. */
  class Reply {
    var actorTableData: Option<ActorTableData>
    var actorTableDataList: seq<ActorTableData>
    var checkpointData: Option<ActorCheckpointData>
    var checkpointIdData: Option<ActorCheckpointIdData>

    constructor()
      ensures Data() == EmptyReply
    {
      actorTableData := None;
      actorTableDataList := [];
      checkpointData := None;
      checkpointIdData := None;
    }

    function Data(): ReplyData
      reads this
    {
      ReplyData(actorTableData, actorTableDataList, checkpointData, checkpointIdData)
    }
  }

  class DefaultActorInfoHandler {
    const codec: Codec
    /** Store calls, manager calls, publishes and replies, oldest first. */
    var log: seq<Event>

    constructor(codec: Codec)
      ensures this.codec == codec && log == []
    {
      this.codec := codec;
      log := [];
    }

    /** GCS_RPC_SEND_REPLY: the reply leaves with a status and its payload. */
    method Respond(reply: Reply, status: Status)
      modifies this
      ensures log == old(log) + [SendReply(status, reply.Data())]
    {
      log := log + [SendReply(status, reply.Data())];
    }

    method HandleCreateActor(request: CreateActorRequest, reply: Reply, manager: ManagerReply)
      requires request.taskSpec.taskType == ActorCreationTask
      modifies this
      ensures log == old(log) + CreateActorRun(request, manager, reply.Data()).events
    {
      log := log + [ManagerCall(request)];
      var status := manager.submit;
      if !status.OK? {
        Respond(reply, status);
      }
      // The success callback RegisterActor was given.
      if manager.created {
        Respond(reply, OK);
      }
    }

    method GetActorInfoOnDone(reply: Reply, status: Status, result: Option<ActorTableData>)
      modifies this, reply
      ensures reply.Data() == GetActorInfoDone(old(reply.Data()), status, result).reply
      ensures log == old(log) + GetActorInfoDone(old(reply.Data()), status, result).events
    {
      if result.Some? {
        reply.actorTableData := result;
      }
      Respond(reply, OK);
    }

    method HandleGetActorInfo(request: GetActorInfoRequest, reply: Reply, store: StoreReply<Option<ActorTableData>>)
      modifies this, reply
      ensures reply.Data() == GetActorInfoRun(request, store, old(reply.Data())).reply
      ensures log == old(log) + GetActorInfoRun(request, store, old(reply.Data())).events
    {
      var actorId := ActorId(request.actorId);
      log := log + [StoreCall(Get(actorId))];
      var status := store.submit;
      if !status.OK? {
        GetActorInfoOnDone(reply, status, None);
      }
      if store.callback.Some? {
        GetActorInfoOnDone(reply, store.callback.value.status, store.callback.value.result);
      }
    }

    method GetAllActorInfoOnDone(reply: Reply, status: Status, result: seq<ActorTableData>)
      modifies this, reply
      ensures reply.Data() == GetAllActorInfoDone(old(reply.Data()), status, result).reply
      ensures log == old(log) + GetAllActorInfoDone(old(reply.Data()), status, result).events
    {
      for i := 0 to |result|
        invariant reply.Data() == old(reply.Data()).(actorTableDataList := old(reply.actorTableDataList) + result[..i])
        invariant log == old(log)
      {
        reply.actorTableDataList := reply.actorTableDataList + [result[i]];
        assert result[..i + 1] == result[..i] + [result[i]];
      }
      assert result[..|result|] == result;
      Respond(reply, OK);
    }

    method HandleGetAllActorInfo(request: GetAllActorInfoRequest, reply: Reply, store: StoreReply<seq<ActorTableData>>)
      modifies this, reply
      ensures reply.Data() == GetAllActorInfoRun(request, store, old(reply.Data())).reply
      ensures log == old(log) + GetAllActorInfoRun(request, store, old(reply.Data())).events
    {
      log := log + [StoreCall(GetAll)];
      var status := store.submit;
      if !status.OK? {
        GetAllActorInfoOnDone(reply, status, []);
      }
      if store.callback.Some? {
        GetAllActorInfoOnDone(reply, store.callback.value.status, store.callback.value.result);
      }
    }

    method GetNamedActorInfoOnDone(reply: Reply, status: Status, result: Option<ActorTableData>)
      modifies this, reply
      ensures reply.Data() == GetNamedActorInfoDone(old(reply.Data()), status, result).reply
      ensures log == old(log) + GetNamedActorInfoDone(old(reply.Data()), status, result).events
    {
      if status.OK? {
        if result.Some? {
          reply.actorTableData := result;
        }
      }
      Respond(reply, status);
    }

    /** `nameIndex` answers GcsActorManager::GetActorIDByName (None: the nil id). */
    method HandleGetNamedActorInfo(request: GetNamedActorInfoRequest, reply: Reply,
                                   nameIndex: string -> Option<ActorId>, store: StoreReply<Option<ActorTableData>>)
      modifies this, reply
      ensures reply.Data() == GetNamedActorInfoRun(request, nameIndex, store, old(reply.Data())).reply
      ensures log == old(log) + GetNamedActorInfoRun(request, nameIndex, store, old(reply.Data())).events
    {
      var name := request.name;
      var actorId := nameIndex(name);
      if actorId.None? {
        GetNamedActorInfoOnDone(reply, Error(NotFound, NotFoundMessage(name)), None);
      } else {
        log := log + [StoreCall(Get(actorId.value))];
        var status := store.submit;
        if !status.OK? {
          GetNamedActorInfoOnDone(reply, status, None);
        }
        if store.callback.Some? {
          GetNamedActorInfoOnDone(reply, store.callback.value.status, store.callback.value.result);
        }
      }
    }

    /** The on_done of register and update. */
    method ActorMutationOnDone(reply: Reply, actorId: ActorId, actorTableData: ActorTableData, status: Status)
      modifies this
      ensures log == old(log) + ActorMutationDone(codec, actorId, actorTableData, reply.Data(), status).events
    {
      if status.OK? {
        log := log + [Publish(ActorChannel, codec.hex(actorId), codec.serialize(actorTableData))];
      }
      Respond(reply, status);
    }

    method HandleRegisterActorInfo(request: RegisterActorInfoRequest, reply: Reply, store: StoreReply<()>)
      modifies this
      ensures log == old(log) + RegisterActorInfoRun(codec, request, store, reply.Data()).events
    {
      var actorId := ActorId(request.actorTableData.actorId);
      var actorTableData := request.actorTableData;
      log := log + [StoreCall(Register(actorTableData))];
      var status := store.submit;
      if !status.OK? {
        ActorMutationOnDone(reply, actorId, actorTableData, status);
      }
      if store.callback.Some? {
        ActorMutationOnDone(reply, actorId, actorTableData, store.callback.value.status);
      }
    }

    method HandleUpdateActorInfo(request: UpdateActorInfoRequest, reply: Reply, store: StoreReply<()>)
      modifies this
      ensures log == old(log) + UpdateActorInfoRun(codec, request, store, reply.Data()).events
    {
      var actorId := ActorId(request.actorId);
      var actorTableData := request.actorTableData;
      log := log + [StoreCall(Update(actorId, actorTableData))];
      var status := store.submit;
      if !status.OK? {
        ActorMutationOnDone(reply, actorId, actorTableData, status);
      }
      if store.callback.Some? {
        ActorMutationOnDone(reply, actorId, actorTableData, store.callback.value.status);
      }
    }

    method AddActorCheckpointOnDone(reply: Reply, status: Status)
      modifies this
      ensures log == old(log) + AddActorCheckpointDone(reply.Data(), status).events
    {
      Respond(reply, status);
    }

    method HandleAddActorCheckpoint(request: AddActorCheckpointRequest, reply: Reply, store: StoreReply<()>)
      modifies this
      ensures log == old(log) + AddActorCheckpointRun(request, store, reply.Data()).events
    {
      var checkpointData := request.checkpointData;
      log := log + [StoreCall(AddCheckpoint(checkpointData))];
      var status := store.submit;
      if !status.OK? {
        AddActorCheckpointOnDone(reply, status);
      }
      if store.callback.Some? {
        AddActorCheckpointOnDone(reply, store.callback.value.status);
      }
    }

    method GetActorCheckpointOnDone(reply: Reply, status: Status, result: Option<ActorCheckpointData>)
      requires status.OK? ==> result.Some?
      modifies this, reply
      ensures reply.Data() == GetActorCheckpointDone(old(reply.Data()), status, result).reply
      ensures log == old(log) + GetActorCheckpointDone(old(reply.Data()), status, result).events
    {
      if status.OK? {
        reply.checkpointData := result;
      }
      Respond(reply, status);
    }

    method HandleGetActorCheckpoint(request: GetActorCheckpointRequest, reply: Reply,
                                    store: StoreReply<Option<ActorCheckpointData>>)
      requires OkCarriesResult(store)
      modifies this, reply
      ensures reply.Data() == GetActorCheckpointRun(request, store, old(reply.Data())).reply
      ensures log == old(log) + GetActorCheckpointRun(request, store, old(reply.Data())).events
    {
      var actorId := ActorId(request.actorId);
      var checkpointId := CheckpointId(request.checkpointId);
      log := log + [StoreCall(GetCheckpoint(checkpointId, actorId))];
      var status := store.submit;
      if !status.OK? {
        GetActorCheckpointOnDone(reply, status, None);
      }
      if store.callback.Some? {
        GetActorCheckpointOnDone(reply, store.callback.value.status, store.callback.value.result);
      }
    }

    method GetActorCheckpointIDOnDone(reply: Reply, status: Status, result: Option<ActorCheckpointIdData>)
      requires status.OK? ==> result.Some?
      modifies this, reply
      ensures reply.Data() == GetActorCheckpointIDDone(old(reply.Data()), status, result).reply
      ensures log == old(log) + GetActorCheckpointIDDone(old(reply.Data()), status, result).events
    {
      if status.OK? {
        reply.checkpointIdData := result;
      }
      Respond(reply, status);
    }

    method HandleGetActorCheckpointID(request: GetActorCheckpointIDRequest, reply: Reply,
                                      store: StoreReply<Option<ActorCheckpointIdData>>)
      requires OkCarriesResult(store)
      modifies this, reply
      ensures reply.Data() == GetActorCheckpointIDRun(request, store, old(reply.Data())).reply
      ensures log == old(log) + GetActorCheckpointIDRun(request, store, old(reply.Data())).events
    {
      var actorId := ActorId(request.actorId);
      log := log + [StoreCall(GetCheckpointID(actorId))];
      var status := store.submit;
      if !status.OK? {
        GetActorCheckpointIDOnDone(reply, status, None);
      }
      if store.callback.Some? {
        GetActorCheckpointIDOnDone(reply, store.callback.value.status, store.callback.value.result);
      }
    }
  }
}
