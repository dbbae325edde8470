/** What each request of DefaultActorInfoHandler promises.

    Three kinds of statements per handler:
    - `…Replies`: how many replies a request sends, for every answer of the
      store; it is exactly one if and only if the store keeps its contract
      (calls back exactly when it accepted the submission).
    - `…UnderContract`: under that contract, the exact events and reply
      payload, in terms of the one completion the request sees, whether the
      store rejected the submission at once or completed it later.
    - policy lemmas: the status rules, the publish rule and the keys. */
module ActorProperties {
  import opened ActorTypes
  import opened ActorEvents
  import opened ActorProtocol

  /** The shared shape of the store-backed handlers: a store call, then the
      handler's own on_done on a synchronous failure, then the store's
      callback, each on_done sending exactly one reply. */
  lemma RequestReplies<R>(call: Event, store: StoreReply<R>, sync: Outcome, async: Outcome)
    requires call.StoreCall?
    requires Replies(sync.events) == if store.submit.OK? then 0 else 1
    requires Replies(async.events) == if store.callback.Some? then 1 else 0
    ensures Replies(Request(call, sync, async).events) == 1 <==> store.KeepsContract()
    ensures Publishes(Request(call, sync, async).events) == Publishes(sync.events) + Publishes(async.events)
    ensures StoreCalls(Request(call, sync, async).events) == 1 + StoreCalls(sync.events) + StoreCalls(async.events)
  {
    CountRequest(call, sync.events, async.events);
  }

  predicate OccursAt(s: string, part: string, i: int) {
    0 <= i && i + |part| <= |s| && s[i..i + |part|] == part
  }

  /** `part` is a substring of `s`. */
  ghost predicate Contains(s: string, part: string) {
    exists i :: OccursAt(s, part, i)
  }

  // ---------------------------------------------------------------------
  // HandleCreateActor

  /** A rejection is replied at once; an acceptance is replied only when the
      success callback runs; nothing is ever published. */
  lemma CreateActorReplies(request: CreateActorRequest, manager: ManagerReply, reply: ReplyData)
    requires request.taskSpec.taskType == ActorCreationTask
    ensures Replies(CreateActorRun(request, manager, reply).events)
            == (if manager.submit.OK? then 0 else 1) + (if manager.created then 1 else 0)
    ensures Replies(CreateActorRun(request, manager, reply).events) == 1 <==> manager.KeepsContract()
    ensures Publishes(CreateActorRun(request, manager, reply).events) == 0
  {
    var sync := if manager.submit.OK? then [] else [SendReply(manager.submit, reply)];
    var async := if manager.created then [SendReply(OK, reply)] else [];
    CountRequest(ManagerCall(request), sync, async);
  }

  /** Under the manager's contract the reply status is the status
      RegisterActor returned, and the payload is left alone. */
  lemma CreateActorUnderContract(request: CreateActorRequest, manager: ManagerReply, reply: ReplyData)
    requires request.taskSpec.taskType == ActorCreationTask
    requires manager.KeepsContract()
    ensures CreateActorRun(request, manager, reply) == Outcome(reply, [ManagerCall(request), SendReply(manager.submit, reply)])
  {
  }

  // ---------------------------------------------------------------------
  // HandleGetActorInfo

  lemma GetActorInfoReplies(request: GetActorInfoRequest, store: StoreReply<Option<ActorTableData>>, reply: ReplyData)
    ensures Replies(GetActorInfoRun(request, store, reply).events) == 1 <==> store.KeepsContract()
    ensures Publishes(GetActorInfoRun(request, store, reply).events) == 0
  {
    var sync := if store.submit.OK? then Quiet(reply) else GetActorInfoDone(reply, store.submit, None);
    var async := match store.callback
      case None => Quiet(sync.reply)
      case Some(c) => GetActorInfoDone(sync.reply, c.status, c.result);
    RequestReplies(StoreCall(Get(ActorId(request.actorId))), store, sync, async);
  }

  /** Lookup by id answers OK, whatever the store reports, on every path. */
  lemma GetActorInfoAlwaysOK(request: GetActorInfoRequest, store: StoreReply<Option<ActorTableData>>, reply: ReplyData)
    ensures forall e :: e in GetActorInfoRun(request, store, reply).events && e.SendReply? ==> e.status == OK
  {
  }

  /** Under the contract: one store call, then one OK reply whose payload is
      the record exactly when the store returned one. */
  lemma GetActorInfoUnderContract(request: GetActorInfoRequest, store: StoreReply<Option<ActorTableData>>,
                                  reply: ReplyData)
    requires store.KeepsContract()
    ensures var c := store.Effective(None);
            var o := GetActorInfoRun(request, store, reply);
            && o.reply == (if c.result.Some? then reply.(actorTableData := c.result) else reply)
            && o.events == [StoreCall(Get(ActorId(request.actorId))), SendReply(OK, o.reply)]
  {
  }

  // ---------------------------------------------------------------------
  // HandleGetAllActorInfo

  lemma GetAllActorInfoReplies(request: GetAllActorInfoRequest, store: StoreReply<seq<ActorTableData>>, reply: ReplyData)
    ensures Replies(GetAllActorInfoRun(request, store, reply).events) == 1 <==> store.KeepsContract()
    ensures Publishes(GetAllActorInfoRun(request, store, reply).events) == 0
  {
    var sync := if store.submit.OK? then Quiet(reply) else GetAllActorInfoDone(reply, store.submit, []);
    var async := match store.callback
      case None => Quiet(sync.reply)
      case Some(c) => GetAllActorInfoDone(sync.reply, c.status, c.result);
    RequestReplies(StoreCall(GetAll), store, sync, async);
  }

  /** Under the contract: every returned record, in the order received,
      after what the reply already held, with status OK; a synchronous
      failure returns no records. */
  lemma GetAllActorInfoUnderContract(request: GetAllActorInfoRequest, store: StoreReply<seq<ActorTableData>>,
                                     reply: ReplyData)
    requires store.KeepsContract()
    ensures var c := store.Effective([]);
            var o := GetAllActorInfoRun(request, store, reply);
            && o.reply == reply.(actorTableDataList := reply.actorTableDataList + c.result)
            && o.events == [StoreCall(GetAll), SendReply(OK, o.reply)]
            && (!store.submit.OK? ==> o.reply == reply)
  {
  }

  // ---------------------------------------------------------------------
  // HandleGetNamedActorInfo

  lemma GetNamedActorInfoReplies(request: GetNamedActorInfoRequest, nameIndex: string -> Option<ActorId>,
                                 store: StoreReply<Option<ActorTableData>>, reply: ReplyData)
    ensures Replies(GetNamedActorInfoRun(request, nameIndex, store, reply).events) == 1
            <==> nameIndex(request.name).None? || store.KeepsContract()
    ensures Publishes(GetNamedActorInfoRun(request, nameIndex, store, reply).events) == 0
  {
    if nameIndex(request.name).Some? {
      var sync := if store.submit.OK? then Quiet(reply) else GetNamedActorInfoDone(reply, store.submit, None);
      var async := match store.callback
        case None => Quiet(sync.reply)
        case Some(c) => GetNamedActorInfoDone(sync.reply, c.status, c.result);
      RequestReplies(StoreCall(Get(nameIndex(request.name).value)), store, sync, async);
    }
  }

  /** An unknown name is answered NotFound, with a message naming it, and
      the store is never called. */
  lemma GetNamedActorInfoNotFound(request: GetNamedActorInfoRequest, nameIndex: string -> Option<ActorId>,
                                  store: StoreReply<Option<ActorTableData>>, reply: ReplyData)
    requires nameIndex(request.name).None?
    ensures var o := GetNamedActorInfoRun(request, nameIndex, store, reply);
            && o.reply == reply
            && o.events == [SendReply(Error(NotFound, NotFoundMessage(request.name)), reply)]
            && StoreCalls(o.events) == 0
    ensures Contains(NotFoundMessage(request.name), request.name)
  {
    var name := request.name;
    var prefix := "Actor with name '";
    assert NotFoundMessage(name)[|prefix|..|prefix| + |name|] == name;
    assert OccursAt(NotFoundMessage(name), name, |prefix|);
  }

  /** A known name: the reply carries the store's status, and the record is
      copied only when that status is OK and a record came back. */
  lemma GetNamedActorInfoUnderContract(request: GetNamedActorInfoRequest, nameIndex: string -> Option<ActorId>,
                                       store: StoreReply<Option<ActorTableData>>, reply: ReplyData)
    requires nameIndex(request.name).Some?
    requires store.KeepsContract()
    ensures var c := store.Effective(None);
            var o := GetNamedActorInfoRun(request, nameIndex, store, reply);
            && o.reply == (if c.status.OK? && c.result.Some? then reply.(actorTableData := c.result) else reply)
            && o.events == [StoreCall(Get(nameIndex(request.name).value)), SendReply(c.status, o.reply)]
  {
  }

  /** The two lookups differ on a failing store: lookup by id still answers
      OK (and copies a record the store returned), lookup of a name bound to
      the same id answers with the store's failure. */
  lemma LookupPoliciesDiffer(byId: GetActorInfoRequest, byName: GetNamedActorInfoRequest,
                             nameIndex: string -> Option<ActorId>, store: StoreReply<Option<ActorTableData>>,
                             reply: ReplyData)
    requires nameIndex(byName.name) == Some(ActorId(byId.actorId))
    requires store.KeepsContract() && !store.Effective(None).status.OK?
    ensures GetActorInfoRun(byId, store, reply).events[1].status == OK
    ensures var result := store.Effective(None).result;
            GetActorInfoRun(byId, store, reply).reply
            == if result.Some? then reply.(actorTableData := result) else reply
    ensures GetNamedActorInfoRun(byName, nameIndex, store, reply).events[1] == SendReply(store.Effective(None).status, reply)
  {
  }

  // ---------------------------------------------------------------------
  // HandleRegisterActorInfo

  /** Exactly one reply under the contract; a publish only for a completion
      the store delivered with OK, never for a synchronous failure. */
  lemma RegisterActorInfoReplies(codec: Codec, request: RegisterActorInfoRequest, store: StoreReply<()>,
                                 reply: ReplyData)
    ensures Replies(RegisterActorInfoRun(codec, request, store, reply).events) == 1 <==> store.KeepsContract()
    ensures Publishes(RegisterActorInfoRun(codec, request, store, reply).events)
            == if store.callback.Some? && store.callback.value.status.OK? then 1 else 0
  {
    var actorId := ActorId(request.actorTableData.actorId);
    var data := request.actorTableData;
    var sync := if store.submit.OK? then Quiet(reply) else ActorMutationDone(codec, actorId, data, reply, store.submit);
    var async := match store.callback
      case None => Quiet(sync.reply)
      case Some(c) => ActorMutationDone(codec, actorId, data, sync.reply, c.status);
    RequestReplies(StoreCall(Register(data)), store, sync, async);
  }

  /** Whatever the store does, each publish is followed at once by an OK reply. */
  lemma RegisterActorInfoPublishOrder(codec: Codec, request: RegisterActorInfoRequest, store: StoreReply<()>,
                                      reply: ReplyData)
    ensures PublishThenOkReply(RegisterActorInfoRun(codec, request, store, reply).events)
  {
  }

  /** Under the contract: on OK the store call, then the publish of the
      record's serialized copy on the actor channel keyed by the hex form of
      the id embedded in the record, then an OK reply; on failure the store
      call and a reply with the store's status, no publish. */
  lemma RegisterActorInfoUnderContract(codec: Codec, request: RegisterActorInfoRequest, store: StoreReply<()>,
                                       reply: ReplyData)
    requires store.KeepsContract()
    ensures var c := store.Effective(());
            var data := request.actorTableData;
            var o := RegisterActorInfoRun(codec, request, store, reply);
            && o.reply == reply
            && o.events == if c.status.OK? then
                 [StoreCall(Register(data)),
                  Publish(ActorChannel, codec.hex(ActorId(data.actorId)), codec.serialize(data)),
                  SendReply(OK, reply)]
               else
                 [StoreCall(Register(data)), SendReply(c.status, reply)]
  {
  }

  // ---------------------------------------------------------------------
  // HandleUpdateActorInfo

  lemma UpdateActorInfoReplies(codec: Codec, request: UpdateActorInfoRequest, store: StoreReply<()>,
                               reply: ReplyData)
    ensures Replies(UpdateActorInfoRun(codec, request, store, reply).events) == 1 <==> store.KeepsContract()
    ensures Publishes(UpdateActorInfoRun(codec, request, store, reply).events)
            == if store.callback.Some? && store.callback.value.status.OK? then 1 else 0
  {
    var actorId := ActorId(request.actorId);
    var data := request.actorTableData;
    var sync := if store.submit.OK? then Quiet(reply) else ActorMutationDone(codec, actorId, data, reply, store.submit);
    var async := match store.callback
      case None => Quiet(sync.reply)
      case Some(c) => ActorMutationDone(codec, actorId, data, sync.reply, c.status);
    RequestReplies(StoreCall(Update(actorId, data)), store, sync, async);
  }

  lemma UpdateActorInfoPublishOrder(codec: Codec, request: UpdateActorInfoRequest, store: StoreReply<()>,
                                    reply: ReplyData)
    ensures PublishThenOkReply(UpdateActorInfoRun(codec, request, store, reply).events)
  {
  }

  /** Under the contract: as for register, but the store call and the
      publish key use the request's own actor id field. */
  lemma UpdateActorInfoUnderContract(codec: Codec, request: UpdateActorInfoRequest, store: StoreReply<()>,
                                     reply: ReplyData)
    requires store.KeepsContract()
    ensures var c := store.Effective(());
            var actorId := ActorId(request.actorId);
            var data := request.actorTableData;
            var o := UpdateActorInfoRun(codec, request, store, reply);
            && o.reply == reply
            && o.events == if c.status.OK? then
                 [StoreCall(Update(actorId, data)),
                  Publish(ActorChannel, codec.hex(actorId), codec.serialize(data)),
                  SendReply(OK, reply)]
               else
                 [StoreCall(Update(actorId, data)), SendReply(c.status, reply)]
  {
  }

  /** When the request's id and the id inside its record disagree, an update
      publishes under a different key than registering the same record
      would, provided hex encoding is injective. */
  lemma UpdateKeysOnRequestId(codec: Codec, request: UpdateActorInfoRequest, store: StoreReply<()>, reply: ReplyData)
    requires codec.HexInjective()
    requires request.actorId != request.actorTableData.actorId
    requires store.KeepsContract() && store.Effective(()).status.OK?
    ensures UpdateActorInfoRun(codec, request, store, reply).events[1].key
            != RegisterActorInfoRun(codec, RegisterActorInfoRequest(request.actorTableData), store, reply).events[1].key
  {
  }

  // ---------------------------------------------------------------------
  // HandleAddActorCheckpoint

  lemma AddActorCheckpointReplies(request: AddActorCheckpointRequest, store: StoreReply<()>, reply: ReplyData)
    ensures Replies(AddActorCheckpointRun(request, store, reply).events) == 1 <==> store.KeepsContract()
    ensures Publishes(AddActorCheckpointRun(request, store, reply).events) == 0
  {
    var sync := if store.submit.OK? then Quiet(reply) else AddActorCheckpointDone(reply, store.submit);
    var async := match store.callback
      case None => Quiet(sync.reply)
      case Some(c) => AddActorCheckpointDone(sync.reply, c.status);
    RequestReplies(StoreCall(AddCheckpoint(request.checkpointData)), store, sync, async);
  }

  /** Under the contract: the store call, then a reply with exactly the
      store's status and the payload untouched. */
  lemma AddActorCheckpointUnderContract(request: AddActorCheckpointRequest, store: StoreReply<()>, reply: ReplyData)
    requires store.KeepsContract()
    ensures AddActorCheckpointRun(request, store, reply)
            == Outcome(reply, [StoreCall(AddCheckpoint(request.checkpointData)), SendReply(store.Effective(()).status, reply)])
  {
  }

  // ---------------------------------------------------------------------
  // HandleGetActorCheckpoint

  lemma GetActorCheckpointReplies(request: GetActorCheckpointRequest, store: StoreReply<Option<ActorCheckpointData>>,
                                  reply: ReplyData)
    requires OkCarriesResult(store)
    ensures Replies(GetActorCheckpointRun(request, store, reply).events) == 1 <==> store.KeepsContract()
    ensures Publishes(GetActorCheckpointRun(request, store, reply).events) == 0
  {
    var sync := if store.submit.OK? then Quiet(reply) else GetActorCheckpointDone(reply, store.submit, None);
    var async := match store.callback
      case None => Quiet(sync.reply)
      case Some(c) => GetActorCheckpointDone(sync.reply, c.status, c.result);
    RequestReplies(StoreCall(GetCheckpoint(CheckpointId(request.checkpointId), ActorId(request.actorId))),
                   store, sync, async);
  }

  /** Under the contract: on OK the checkpoint is copied into the reply, on
      failure the payload is left alone; the reply carries the store's status. */
  lemma GetActorCheckpointUnderContract(request: GetActorCheckpointRequest,
                                        store: StoreReply<Option<ActorCheckpointData>>, reply: ReplyData)
    requires OkCarriesResult(store)
    requires store.KeepsContract()
    ensures var c := store.Effective(None);
            var o := GetActorCheckpointRun(request, store, reply);
            && o.reply == (if c.status.OK? then reply.(checkpointData := c.result) else reply)
            && (c.status.OK? ==> o.reply.checkpointData.Some?)
            && o.events == [StoreCall(GetCheckpoint(CheckpointId(request.checkpointId), ActorId(request.actorId))),
                            SendReply(c.status, o.reply)]
  {
  }

  // ---------------------------------------------------------------------
  // HandleGetActorCheckpointID

  lemma GetActorCheckpointIDReplies(request: GetActorCheckpointIDRequest,
                                    store: StoreReply<Option<ActorCheckpointIdData>>, reply: ReplyData)
    requires OkCarriesResult(store)
    ensures Replies(GetActorCheckpointIDRun(request, store, reply).events) == 1 <==> store.KeepsContract()
    ensures Publishes(GetActorCheckpointIDRun(request, store, reply).events) == 0
  {
    var sync := if store.submit.OK? then Quiet(reply) else GetActorCheckpointIDDone(reply, store.submit, None);
    var async := match store.callback
      case None => Quiet(sync.reply)
      case Some(c) => GetActorCheckpointIDDone(sync.reply, c.status, c.result);
    RequestReplies(StoreCall(GetCheckpointID(ActorId(request.actorId))), store, sync, async);
  }

  lemma GetActorCheckpointIDUnderContract(request: GetActorCheckpointIDRequest,
                                          store: StoreReply<Option<ActorCheckpointIdData>>, reply: ReplyData)
    requires OkCarriesResult(store)
    requires store.KeepsContract()
    ensures var c := store.Effective(None);
            var o := GetActorCheckpointIDRun(request, store, reply);
            && o.reply == (if c.status.OK? then reply.(checkpointIdData := c.result) else reply)
            && (c.status.OK? ==> o.reply.checkpointIdData.Some?)
            && o.events == [StoreCall(GetCheckpointID(ActorId(request.actorId))), SendReply(c.status, o.reply)]
  {
  }
}
