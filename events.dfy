/** What the handler makes observable: calls into the store and the actor
    manager, publishes on the actor channel and replies to the caller, in the
    order they happen; and what its collaborators answer. */
module ActorEvents {
  import opened ActorTypes

  /** The payload of a reply as it is sent.  The nine reply messages each
      carry at most one of these fields; one record with all four stands for
      all of them. */
  datatype ReplyData = ReplyData(
    actorTableData: Option<ActorTableData>,
    actorTableDataList: seq<ActorTableData>,
    checkpointData: Option<ActorCheckpointData>,
    checkpointIdData: Option<ActorCheckpointIdData>)

  const EmptyReply: ReplyData := ReplyData(None, [], None, None)

  datatype Channel = ActorChannel

  /** The calls the handler submits to the actor table of the store. */
  datatype StoreOp =
    | Get(actorId: ActorId)
    | GetAll
    | Register(data: ActorTableData)
    | Update(actorId: ActorId, data: ActorTableData)
    | AddCheckpoint(checkpoint: ActorCheckpointData)
    | GetCheckpoint(checkpointId: CheckpointId, actorId: ActorId)
    | GetCheckpointID(actorId: ActorId)

  datatype Event =
    | StoreCall(op: StoreOp)
    | ManagerCall(request: CreateActorRequest)
    | Publish(channel: Channel, key: string, payload: Bytes)
    | SendReply(status: Status, data: ReplyData)

  /** ActorID::Hex and ActorTableData::SerializeAsString, whose definitions
      lie outside this model. */
  datatype Codec = Codec(hex: ActorId -> string, serialize: ActorTableData -> Bytes) {
    ghost predicate HexInjective() {
      forall a, b :: hex(a) == hex(b) ==> a == b
    }
  }

  /** One call of a completion callback: the status and the result. */
  datatype Completion<R> = Completion(status: Status, result: R)

  /** How the store answers one submission: the status the submitting call
      returns at once, and the completion it delivers later, if any. */
  datatype StoreReply<R> = StoreReply(submit: Status, callback: Option<Completion<R>>) {
    /** The store's contract: it calls back exactly when it accepted the call. */
    predicate KeepsContract() {
      callback.Some? <==> submit.OK?
    }

    /** The one completion a request sees when the store keeps its contract:
        the store's callback if it makes one, otherwise the rejection status
        with `none` as its result.  An OK completion only ever comes from an
        accepted submission, through the store's callback. */
    function Effective(none: R): (c: Completion<R>)
      requires KeepsContract()
      ensures callback.Some? ==> Some(c) == callback
      ensures callback.None? ==> c == Completion(submit, none) && !c.status.OK?
      ensures c.status.OK? ==> submit.OK? && callback == Some(c)
    {
      if submit.OK? then callback.value else Completion(submit, none)
    }
  }

  /** How GcsActorManager::RegisterActor answers: the status it returns and
      whether it later runs the success callback. */
  datatype ManagerReply = ManagerReply(submit: Status, created: bool) {
    predicate KeepsContract() {
      created <==> submit.OK?
    }
  }

  function Count(es: seq<Event>, p: Event -> bool): (n: nat)
    ensures n <= |es|
  {
    if es == [] then 0 else (if p(es[0]) then 1 else 0) + Count(es[1..], p)
  }

  predicate IsReply(e: Event) { e.SendReply? }
  predicate IsPublish(e: Event) { e.Publish? }
  predicate IsStoreCall(e: Event) { e.StoreCall? }

  /** How many replies, publishes and store calls a sequence of events holds. */
  function Replies(es: seq<Event>): nat { Count(es, IsReply) }
  function Publishes(es: seq<Event>): nat { Count(es, IsPublish) }
  function StoreCalls(es: seq<Event>): nat { Count(es, IsStoreCall) }

  lemma {:induction false} CountConcat(a: seq<Event>, b: seq<Event>, p: Event -> bool)
    ensures Count(a + b, p) == Count(a, p) + Count(b, p)
  {
    if a == [] {
      assert a + b == b;
    } else {
      assert (a + b)[1..] == a[1..] + b;
      CountConcat(a[1..], b, p);
    }
  }

  /** Counting over the events of one request: a call event followed by what
      the synchronous failure path and the store's callback produced. */
  lemma CountRequest(call: Event, sync: seq<Event>, async: seq<Event>)
    ensures Replies([call] + sync + async) == (if call.SendReply? then 1 else 0) + Replies(sync) + Replies(async)
    ensures Publishes([call] + sync + async) == (if call.Publish? then 1 else 0) + Publishes(sync) + Publishes(async)
    ensures StoreCalls([call] + sync + async) == (if call.StoreCall? then 1 else 0) + StoreCalls(sync) + StoreCalls(async)
  {
    forall p: Event -> bool
      ensures Count([call] + sync + async, p) == (if p(call) then 1 else 0) + Count(sync, p) + Count(async, p)
    {
      CountConcat([call], sync, p);
      CountConcat([call] + sync, async, p);
    }
  }

  /** Every publish is followed at once by an OK reply. */
  ghost predicate PublishThenOkReply(es: seq<Event>) {
    forall i :: 0 <= i < |es| && es[i].Publish? ==>
      i + 1 < |es| && es[i + 1].SendReply? && es[i + 1].status == OK
  }
}
