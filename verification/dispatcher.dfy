/**
  `MessageHandler.handle_message`: reads the request's type tag, hands the
  request to the handler registered for it, and answers with the handler's
  verdict under the request's own id.
 */
module Dispatcher {
  import opened Wrappers
  import opened JsonValue
  import opened Entities
  import opened Protocol
  import opened Store
  import opened Handlers

  /** The store after a request, the response to its sender, and the broadcasts to others. */
  datatype Reply = Reply(store: Store, response: Response, outbox: seq<Notification>)

  /** The message types a client may send: every type except the four system and connection types. */
  predicate HasHandler(t: MessageType) {
    !(t == ErrorType || t == SuccessType || t == ConnectType || t == DisconnectType)
  }

  /** The handler table: each request type goes to its handler; the rest are unknown. */
  function Dispatch(parse: UuidParser, s: Store, sender: Id, t: MessageType, data: Json): (r: Step)
    requires KeysMatch(s)
    ensures Harmless(r, s)
    ensures t == GetUserInfoType ==> r == HandleGetUserInfo(parse, s, data)
    ensures t == SetUserInfoType ==> r == HandleSetUserInfo(s, sender, data)
    ensures t == GetGroupInfoType ==> r == HandleGetGroupInfo(parse, s, data)
    ensures t == SetGroupInfoType ==> r == HandleSetGroupInfo(parse, s, sender, data)
    ensures t == JoinGroupType ==> r == HandleJoinGroup(parse, s, sender, data)
    ensures t == LeaveGroupType ==> r == HandleLeaveGroup(s, sender)
    ensures t == DeleteGroupType ==> r == HandleDeleteGroup(s, sender)
    ensures t == GetTeamsType ==> r == HandleGetTeams(s, sender)
    ensures t == SetTeamsType ==> r == HandleSetTeams(parse, s, sender, data)
    ensures !HasHandler(t) ==> r == Reject(s, UnknownMessageType)
  {
    match t
    case GetUserInfoType => HandleGetUserInfo(parse, s, data)
    case SetUserInfoType => HandleSetUserInfo(s, sender, data)
    case GetGroupInfoType => HandleGetGroupInfo(parse, s, data)
    case SetGroupInfoType => HandleSetGroupInfo(parse, s, sender, data)
    case JoinGroupType => HandleJoinGroup(parse, s, sender, data)
    case LeaveGroupType => HandleLeaveGroup(s, sender)
    case DeleteGroupType => HandleDeleteGroup(s, sender)
    case GetTeamsType => HandleGetTeams(s, sender)
    case SetTeamsType => HandleSetTeams(parse, s, sender, data)
    case _ => Reject(s, UnknownMessageType)
  }

  /**
    Answers one request. A tag that names no message type raises ValueError,
    which is caught and reported as an error. Whatever happens, the response
    carries the request's id, and a failed request changes nothing.
   */
  function HandleMessage(parse: UuidParser, s: Store, sender: Id, msg: Message): (r: Reply)
    requires KeysMatch(s)
    ensures r.response.requestId == msg.requestId
    ensures r.response.outcome.Failure? ==> r.store == s && r.outbox == []
    ensures ParseType(msg.typeTag).None? ==> r.response.outcome == Failure(Internal)
    ensures ParseType(msg.typeTag).Some? && !HasHandler(ParseType(msg.typeTag).value) ==>
      r.response.outcome == Failure(UnknownMessageType)
  {
    match ParseType(msg.typeTag)
    case None => Reply(s, Response(Failure(Internal), msg.requestId), [])
    case Some(t) =>
      var st := Dispatch(parse, s, sender, t, msg.data);
      Reply(st.store, Response(st.outcome, msg.requestId), st.outbox)
  }

  /** A request tagged with a type's own spelling is answered by that type's handler. */
  lemma TagSelectsHandler(parse: UuidParser, s: Store, sender: Id, t: MessageType, data: Json, requestId: Id)
    requires KeysMatch(s)
    ensures var r := HandleMessage(parse, s, sender, Message(Tag(t), data, requestId));
      var st := Dispatch(parse, s, sender, t, data);
      r == Reply(st.store, Response(st.outcome, requestId), st.outbox)
  {
    ParseTypeInvertsTag(t, Tag(t));
  }

  /** Only the nine spelled request tags reach a handler; anything else is answered with an error. */
  lemma OnlyRequestTagsReachHandlers(parse: UuidParser, s: Store, sender: Id, msg: Message)
    requires KeysMatch(s)
    requires forall t | HasHandler(t) :: msg.typeTag != Tag(t)
    ensures HandleMessage(parse, s, sender, msg).response.outcome.Failure?
    ensures HandleMessage(parse, s, sender, msg).store == s
  {
    match ParseType(msg.typeTag)
    case None =>
    case Some(t) => ParseTypeInvertsTag(t, msg.typeTag);
  }
}
