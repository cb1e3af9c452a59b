/**
  The records the coordinator keeps: users, groups and teams, keyed by
  opaque identifiers, and the payload field names client and server agree on.
 */
module Entities {
  import opened Wrappers
  import opened JsonValue

  /** An opaque UUID. The model never looks inside one. */
  datatype Id = Id(bits: nat)

  /**
    Python's `UUID(text)`: a partial reading of a string as an identifier.
    The model keeps it abstract; every handler receives it as a parameter.
   */
  type UuidParser = string -> Option<Id>

  /**
    A user. `name` and `image` are whatever JSON values the client sent
    (both are None until the first `set_user_info`); `groupId` is the group
    the user belongs to, if any.
   */
  datatype User = User(id: Id, name: Json, image: Json, groupId: Option<Id>)

  /** A group: its admin is fixed at creation; `members` is a set of user ids. */
  datatype Group = Group(id: Id, adminId: Id, name: Json, members: set<Id>)

  /** A team of a group, identified by the pair (group id, team number). */
  datatype Team = Team(id: int, groupId: Id, members: set<Id>)

  /** The record a freshly connected user starts with. */
  function NewUser(id: Id): (u: User)
    ensures u.id == id && u.groupId.None?
    ensures !Truthy(u.name) && !Truthy(u.image)
  {
    User(id, JNull, JNull, None)
  }

  // Payload keys. `groupId` serves both as a user's group and as a group's id.
  const USER_ID := "userId"
  const USER_NAME := "userName"
  const USER_IMAGE := "picture"
  const GROUP_ID := "groupId"
  const GROUP_NAME := "groupName"
  const TEAM_ID := "teamId"
  const TEAM_MEMBERS := "teamMembers"

  /**
    `UUID(x)` applied to a JSON value: a string is parsed (ValueError if it
    is not a UUID), None raises TypeError, and any other value has no string
    methods (AttributeError).
   */
  function ToId(parse: UuidParser, j: Json): (r: Result<Id, Exc>)
    ensures r.Ok? <==> j.JStr? && parse(j.s).Some?
    ensures r.Ok? ==> parse(j.s) == Some(r.value)
    ensures j.JStr? && r.Err? ==> r.error == ValueErr
    ensures j.JNull? ==> r == Err(TypeErr)
    ensures !j.JStr? && !j.JNull? ==> r == Err(AttributeErr)
  {
    match j
    case JStr(s) => (match parse(s) case Some(id) => Ok(id) case None => Err(ValueErr))
    case JNull => Err(TypeErr)
    case _ => Err(AttributeErr)
  }
}
