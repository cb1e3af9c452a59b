/**
  The message envelope: the closed set of type tags, inbound requests,
  responses correlated by request id, and outgoing notifications.
 */
module Protocol {
  import opened Wrappers
  import opened JsonValue
  import opened Entities

  /** The agreed message types, including the four that have no handler. */
  datatype MessageType =
    | GetUserInfoType
    | SetUserInfoType
    | DeleteGroupType
    | JoinGroupType
    | LeaveGroupType
    | GetGroupInfoType
    | SetGroupInfoType
    | SetTeamsType
    | GetTeamsType
    | ErrorType
    | SuccessType
    | ConnectType
    | DisconnectType

  /** The wire spelling of each message type. */
  function Tag(t: MessageType): string {
    match t
    case GetUserInfoType => "get_user_info"
    case SetUserInfoType => "set_user_info"
    case DeleteGroupType => "delete_group"
    case JoinGroupType => "join_group"
    case LeaveGroupType => "leave_group"
    case GetGroupInfoType => "get_group_info"
    case SetGroupInfoType => "set_group_info"
    case SetTeamsType => "set_teams"
    case GetTeamsType => "get_teams"
    case ErrorType => "error"
    case SuccessType => "success"
    case ConnectType => "connect"
    case DisconnectType => "disconnect"
  }

  /** `MessageType(tag)`: the enum member spelled `tag`, or None where Python raises ValueError. */
  function ParseType(tag: string): (r: Option<MessageType>)
    ensures r.None? ==> forall t: MessageType :: Tag(t) != tag
    ensures r.Some? ==> Tag(r.value) == tag
  {
    if tag == "get_user_info" then Some(GetUserInfoType)
    else if tag == "set_user_info" then Some(SetUserInfoType)
    else if tag == "delete_group" then Some(DeleteGroupType)
    else if tag == "join_group" then Some(JoinGroupType)
    else if tag == "leave_group" then Some(LeaveGroupType)
    else if tag == "get_group_info" then Some(GetGroupInfoType)
    else if tag == "set_group_info" then Some(SetGroupInfoType)
    else if tag == "set_teams" then Some(SetTeamsType)
    else if tag == "get_teams" then Some(GetTeamsType)
    else if tag == "error" then Some(ErrorType)
    else if tag == "success" then Some(SuccessType)
    else if tag == "connect" then Some(ConnectType)
    else if tag == "disconnect" then Some(DisconnectType)
    else None
  }

  /** Reading a tag back gives the type it spells, and only a spelled tag is read. */
  lemma ParseTypeInvertsTag(t: MessageType, tag: string)
    ensures ParseType(Tag(t)) == Some(t)
    ensures ParseType(tag) == Some(t) <==> tag == Tag(t)
  {
  }

  /** The error categories a failed request reports. */
  datatype ErrorKind =
    | MissingField                    // a required payload field is absent or falsy
    | InvalidValue                    // an id or team number that does not parse, or null where an id belongs
    | NotFound                        // the referenced user or group does not exist
    | NotGroupMember                  // the sender is in no group
    | AlreadyGroupMember              // the sender is already in a group
    | NotAdmin                        // an admin-only action by someone else
    | AdminCannotLeave
    | AlreadyInAnotherTeam(member: Id) // a member claimed twice, or not in the group at all
    | MembersWithoutTeam              // some group member was left out of every team
    | UserUpdateFailed                // set_user_info's single failure report
    | Internal                        // a store inconsistency or an unexpected exception
    | UnknownMessageType

  /** Response and notification payloads (the `to_dict` views of the records). */
  datatype Payload =
    | NoData
    | UserRecord(user: User)
    | GroupRecord(groupId: Id, name: Json, members: set<Id>)
    | UserIdOnly(userId: Id)
    | TeamSet(teams: set<Team>)
    | TeamList(teamList: seq<Team>)

  /** `Group.to_dict()`: id, name and members; the admin is not part of it. */
  function GroupView(g: Group): (p: Payload)
    ensures p.GroupRecord? && p.groupId == g.id && p.members == g.members
  {
    GroupRecord(g.id, g.name, g.members)
  }

  /** A handler's verdict: SUCCESS with data, or ERROR with a reason. */
  datatype Outcome = Success(data: Payload) | Failure(error: ErrorKind)

  /** An unsolicited message sent to every id in `recipients`. */
  datatype Notification = Notification(recipients: set<Id>, kind: MessageType, data: Payload)

  /** An inbound envelope; `typeTag` is the raw tag as the client sent it. */
  datatype Message = Message(typeTag: string, data: Json, requestId: Id)

  /** The reply to one request, correlated by its request id. */
  datatype Response = Response(outcome: Outcome, requestId: Id)
}
