# Actor info handler of the Ray GCS server, in Dafny

This project models `DefaultActorInfoHandler` (`src/ray/gcs/gcs_server/actor_info_handler_impl.cc`), the GCS server's RPC handler for actor metadata. It has nine handlers: CreateActor, GetActorInfo, GetAllActorInfo, GetNamedActorInfo, RegisterActorInfo, UpdateActorInfo, AddActorCheckpoint, GetActorCheckpoint and GetActorCheckpointID. A request takes one of three paths:

- Most requests submit one asynchronous call to the actor table of the GCS store, with an `on_done` callback. If the submission itself returns a non-OK status, the handler calls that same `on_done` at once.
- CreateActor hands the request to the actor manager's `RegisterActor` instead.
- GetNamedActorInfo with a name the name index does not know calls `on_done` with NotFound directly. It neither submits to the store nor calls the manager.

`on_done` fills the caller's reply. For register and update, when the status is OK, it first publishes the record on the actor channel. It then sends the reply with a status.

The model covers what the handler decides by itself:

- which status the reply carries;
- which payload is copied into the reply;
- whether a publish happens, under which key, with which bytes, and before the reply;
- how many replies one request produces, depending on how the store answers.

Files:

- `types.dfy` (`ActorTypes`): ids, records, statuses and the nine request messages, as values.
- `events.dfy` (`ActorEvents`): the observable events (store call, manager call, publish, reply). Also the collaborators' answers:
  - `StoreReply`: the status a submission returns, and the completion the store later delivers, if any.
  - `ManagerReply`: the status `RegisterActor` returns, and whether its success callback runs.
  - `Codec`: `ActorID::Hex` and `SerializeAsString`.
  - Counting of events.
- `protocol.dfy` (`ActorProtocol`): each `on_done` as a pure function (`…Done`), and each whole request as a pure function (`…Run`). A request is the store call, then the handler's own `on_done` on a synchronous failure, then the store's callback.
- `properties.dfy` (`ActorProperties`): lemmas stating what each request promises.
- `handler.dfy` (`ActorInfoHandler`): the handler as imperative code.
  - Class `Reply` is the caller-owned reply message, filled in place.
  - Class `DefaultActorInfoHandler` holds the event log. It has one method per handler and one method per `on_done` lambda.
  - Each method is proved to produce exactly the new log and reply that its `…Done` or `…Run` function describes.

The store contract is `StoreReply.KeepsContract`: the store calls back exactly when it accepted the submission. The `…Replies` lemmas prove how many replies a request sends:

- For GetActorInfo, GetAllActorInfo, RegisterActorInfo, UpdateActorInfo and AddActorCheckpoint: exactly one reply if and only if the store keeps this contract.
- For GetActorCheckpoint and GetActorCheckpointID: the same, given that an OK completion carries a result (the `RAY_DCHECK`, a precondition).
- For GetNamedActorInfo: exactly one reply if and only if the name is unknown or the store keeps its contract. An unknown name is answered once, whatever the store does.
- For CreateActor: exactly one reply if and only if the manager keeps its own contract, `ManagerReply.KeepsContract`. That contract is that the success callback runs exactly when `RegisterActor` returned OK.

These statements cover stores and managers that call back at most once: the model has no way to express a second callback (see "## Left out").

Under the contract, each store-backed request behaves as its `on_done` applied once to a single completion. That completion is the store's callback, or the synchronous failure status with an empty result.

## Model

| member | source | states |
|---|---|---|
| `ActorInfoHandler.DefaultActorInfoHandler.HandleCreateActor` | src/ray/gcs/gcs_server/actor_info_handler_impl.cc:21-38 | requires an actor creation task (the RAY_CHECK). The log gains the manager call, then a reply with RegisterActor's status if it was rejected, then an OK reply if the success callback runs |
| `ActorInfoHandler.DefaultActorInfoHandler.GetActorInfoOnDone` | src/ray/gcs/gcs_server/actor_info_handler_impl.cc:48-57 | copies a returned record into the reply, then replies OK whatever the status |
| `ActorInfoHandler.DefaultActorInfoHandler.HandleGetActorInfo` | src/ray/gcs/gcs_server/actor_info_handler_impl.cc:41-64 | log and reply are those of `GetActorInfoRun`: the store call by the request's id, `on_done` on a synchronous failure, then the store's callback |
| `ActorInfoHandler.DefaultActorInfoHandler.GetAllActorInfoOnDone` | src/ray/gcs/gcs_server/actor_info_handler_impl.cc:71-78 | appends every returned record to the reply in order (a loop with its invariant), then replies OK |
| `ActorInfoHandler.DefaultActorInfoHandler.HandleGetAllActorInfo` | src/ray/gcs/gcs_server/actor_info_handler_impl.cc:66-84 | log and reply are those of `GetAllActorInfoRun`. A synchronous failure calls `on_done` with an empty list |
| `ActorInfoHandler.DefaultActorInfoHandler.GetNamedActorInfoOnDone` | src/ray/gcs/gcs_server/actor_info_handler_impl.cc:93-104 | copies the record only when the status is OK and a record came back. Replies with the status as given |
| `ActorInfoHandler.DefaultActorInfoHandler.HandleGetNamedActorInfo` | src/ray/gcs/gcs_server/actor_info_handler_impl.cc:86-123 | log and reply are those of `GetNamedActorInfoRun`. A nil id from the name index goes straight to `on_done` with NotFound and no store call |
| `ActorInfoHandler.DefaultActorInfoHandler.ActorMutationOnDone` | src/ray/gcs/gcs_server/actor_info_handler_impl.cc:132-144 | on OK, appends a publish on the actor channel (key: hex of the captured id; payload: the serialized record copy), then the reply. Otherwise appends only the reply. The reply carries the status as given |
| `ActorInfoHandler.DefaultActorInfoHandler.HandleRegisterActorInfo` | src/ray/gcs/gcs_server/actor_info_handler_impl.cc:124-150 | log is that of `RegisterActorInfoRun`: the store call with the record copy, keyed by the record's own id |
| `ActorInfoHandler.DefaultActorInfoHandler.HandleUpdateActorInfo` | src/ray/gcs/gcs_server/actor_info_handler_impl.cc:152-178 | log is that of `UpdateActorInfoRun`: the store call and the publish key use the request's `actor_id` field |
| `ActorInfoHandler.DefaultActorInfoHandler.AddActorCheckpointOnDone` | src/ray/gcs/gcs_server/actor_info_handler_impl.cc:190-201 | replies with the status as given; no publish |
| `ActorInfoHandler.DefaultActorInfoHandler.HandleAddActorCheckpoint` | src/ray/gcs/gcs_server/actor_info_handler_impl.cc:180-207 | log is that of `AddActorCheckpointRun` |
| `ActorInfoHandler.DefaultActorInfoHandler.GetActorCheckpointOnDone` | src/ray/gcs/gcs_server/actor_info_handler_impl.cc:217-231 | requires that OK implies a result (the RAY_DCHECK). On OK, copies the checkpoint. Replies with the status |
| `ActorInfoHandler.DefaultActorInfoHandler.HandleGetActorCheckpoint` | src/ray/gcs/gcs_server/actor_info_handler_impl.cc:209-238 | requires that the store's OK completion carries a result. Log and reply are those of `GetActorCheckpointRun` |
| `ActorInfoHandler.DefaultActorInfoHandler.GetActorCheckpointIDOnDone` | src/ray/gcs/gcs_server/actor_info_handler_impl.cc:246-259 | as for the checkpoint, for the checkpoint id list |
| `ActorInfoHandler.DefaultActorInfoHandler.HandleGetActorCheckpointID` | src/ray/gcs/gcs_server/actor_info_handler_impl.cc:240-265 | log and reply are those of `GetActorCheckpointIDRun` |
| `ActorProtocol.ActorMutationDone` | src/ray/gcs/gcs_server/actor_info_handler_impl.cc:132-172 | the `on_done` shared by register (lines 132-144) and update (lines 160-172) sends exactly one reply. It publishes once if the status is OK and never otherwise. It leaves the reply payload alone |
| `ActorProperties.RequestReplies` | src/ray/gcs/gcs_server/actor_info_handler_impl.cc:146-149 | the shared pattern "submit; on immediate non-OK call `on_done` yourself" sends exactly one reply iff the store calls back exactly when it accepted |
| `ActorProperties.CreateActorReplies` | src/ray/gcs/gcs_server/actor_info_handler_impl.cc:29-38 | replies = (1 if rejected) + (1 if the success callback runs). So exactly one reply iff the callback runs exactly on acceptance. Never publishes |
| `ActorProperties.CreateActorUnderContract` | src/ray/gcs/gcs_server/actor_info_handler_impl.cc:29-38 | under the manager's contract: the manager call, then one reply whose status is RegisterActor's status |
| `ActorProperties.GetActorInfoReplies` | src/ray/gcs/gcs_server/actor_info_handler_impl.cc:59-63 | exactly one reply iff the store keeps its contract; never publishes |
| `ActorProperties.GetActorInfoAlwaysOK` | src/ray/gcs/gcs_server/actor_info_handler_impl.cc:48-63 | for every store answer, including a synchronous failure, every reply has status OK |
| `ActorProperties.GetActorInfoUnderContract` | src/ray/gcs/gcs_server/actor_info_handler_impl.cc:48-63 | one store call by the request's id, then one OK reply. The record is copied exactly when the completion carries one |
| `ActorProperties.GetAllActorInfoReplies` | src/ray/gcs/gcs_server/actor_info_handler_impl.cc:80-83 | exactly one reply iff the store keeps its contract; never publishes |
| `ActorProperties.GetAllActorInfoUnderContract` | src/ray/gcs/gcs_server/actor_info_handler_impl.cc:71-83 | the reply list gains every returned record, in order, with status OK. A synchronous failure adds nothing |
| `ActorProperties.GetNamedActorInfoReplies` | src/ray/gcs/gcs_server/actor_info_handler_impl.cc:107-119 | exactly one reply iff the name is unknown or the store keeps its contract; never publishes |
| `ActorProperties.GetNamedActorInfoNotFound` | src/ray/gcs/gcs_server/actor_info_handler_impl.cc:107-113 | an unknown name gives exactly one NotFound reply, whose message contains the name. No store call, payload untouched |
| `ActorProperties.GetNamedActorInfoUnderContract` | src/ray/gcs/gcs_server/actor_info_handler_impl.cc:93-119 | a known name: the store call with the resolved id, then a reply with the store's status. The record is copied only on OK with a result |
| `ActorProperties.LookupPoliciesDiffer` | src/ray/gcs/gcs_server/actor_info_handler_impl.cc:48-104 | on a failing store, lookup by id replies OK (and still copies a record the store returned) while lookup of a name bound to the same id replies with the failure and copies nothing |
| `ActorProperties.RegisterActorInfoReplies` | src/ray/gcs/gcs_server/actor_info_handler_impl.cc:132-149 | exactly one reply iff the store keeps its contract. One publish exactly when the store's callback reports OK; a synchronous failure never publishes |
| `ActorProperties.RegisterActorInfoPublishOrder` | src/ray/gcs/gcs_server/actor_info_handler_impl.cc:134-143 | for every store answer, each publish is followed at once by an OK reply |
| `ActorProperties.RegisterActorInfoUnderContract` | src/ray/gcs/gcs_server/actor_info_handler_impl.cc:127-149 | on OK: store call, publish (actor channel, hex of the record's id, serialized copy), OK reply. On failure: store call, then a reply with the failure; no publish |
| `ActorProperties.UpdateActorInfoReplies` | src/ray/gcs/gcs_server/actor_info_handler_impl.cc:160-177 | as for register |
| `ActorProperties.UpdateActorInfoPublishOrder` | src/ray/gcs/gcs_server/actor_info_handler_impl.cc:162-171 | for every store answer, each publish is followed at once by an OK reply |
| `ActorProperties.UpdateActorInfoUnderContract` | src/ray/gcs/gcs_server/actor_info_handler_impl.cc:155-177 | as for register, with the store call and the publish key on the request's `actor_id` field |
| `ActorProperties.UpdateKeysOnRequestId` | src/ray/gcs/gcs_server/actor_info_handler_impl.cc:155-174 | when the request's id differs from the record's id (and hex is injective), update publishes under a different key than register of the same record |
| `ActorProperties.AddActorCheckpointReplies` | src/ray/gcs/gcs_server/actor_info_handler_impl.cc:203-206 | exactly one reply iff the store keeps its contract; never publishes |
| `ActorProperties.AddActorCheckpointUnderContract` | src/ray/gcs/gcs_server/actor_info_handler_impl.cc:188-206 | the store call with the checkpoint copy, then a reply with exactly the store's status; payload untouched |
| `ActorProperties.GetActorCheckpointReplies` | src/ray/gcs/gcs_server/actor_info_handler_impl.cc:233-237 | exactly one reply iff the store keeps its contract; never publishes |
| `ActorProperties.GetActorCheckpointUnderContract` | src/ray/gcs/gcs_server/actor_info_handler_impl.cc:217-237 | on OK the checkpoint is copied into the reply (so it is present). On failure the payload is untouched. The reply carries the store's status |
| `ActorProperties.GetActorCheckpointIDReplies` | src/ray/gcs/gcs_server/actor_info_handler_impl.cc:261-264 | exactly one reply iff the store keeps its contract; never publishes |
| `ActorProperties.GetActorCheckpointIDUnderContract` | src/ray/gcs/gcs_server/actor_info_handler_impl.cc:246-264 | as for the checkpoint, for the checkpoint id list |

## Left out

- Logging (`RAY_LOG`) and the `JobId()` values read only for log lines. They have no effect on replies or publishes. The actor id derived in HandleCreateActor is used only in log lines, so it is not computed.
- Protobuf details. Records are opaque values whose only named fields are those the handler reads. `CopyFrom` is value assignment. The nine reply messages are one `ReplyData` record holding the union of their payload fields; each handler touches only its own field.
- `ActorID::FromBinary`, `ActorCheckpointID::FromBinary`, `ActorID::Hex` and `SerializeAsString` are defined in files that are not part of this model. The two ids wrap their bytes, without FromBinary's size check. Hex and serialization are arbitrary functions supplied in a `Codec`; only `UpdateKeysOnRequestId` assumes hex is injective.
- The nil `ActorID` that `GetActorIDByName` returns for an unknown name is `None`.
- `RAY_CHECK_OK` on `Publish`: publishing is assumed to succeed. The process abort on a failed publish is not modelled.
- Threading and the transport. The `send_reply_callback` is the `SendReply` event. One request is modelled at a time. The store's callback runs as a step after the handler's own check of the submission status.
- A store that calls back from inside the submission, before the submission returns, is not modelled. Such a store breaks the contract if the submission then also returns non-OK. The source then runs `on_done` twice, callback first. The order then matters for five handlers. In the source the callback fills the reply object first, and the later failure reply sends that same object again, so both replies carry the payload. In the model the first reply is the failure with the payload as it was. The five handlers are:
  - GetActorInfo: always, when the callback returns a record.
  - GetAllActorInfo: always, when the callback returns records.
  - GetNamedActorInfo, GetActorCheckpoint and GetActorCheckpointID: when the callback's status is OK.
- The same holds for `GcsActorManager::RegisterActor`. If it ran its success callback before returning, and then returned non-OK, the source would send the OK reply before the rejection reply. The model always sends the rejection first. Only the order differs: `CreateActorReplies` counts two replies either way.
- At-most-once delivery is built into the collaborators' answers. `StoreReply.callback` is an `Option`, and `ManagerReply.created` is a `bool`. So a store or manager that calls back twice or more cannot be expressed, and the "if and only if" of the `…Replies` lemmas covers only those that call back at most once.
- Requests are values. So the copy of the record taken at entry and the request's record are the same value; later changes by the caller are not modelled.
- The internals of the store, of `GcsActorManager::RegisterActor`, of `GetActorIDByName` and of the publisher. Each is represented only by the answer it gives. So are end-to-end properties that depend on what the store keeps, such as reading back a registered record or write-once checkpoints.
