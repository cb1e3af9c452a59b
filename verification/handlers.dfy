/**
  The request handlers of `MessageHandler`. Each handler is a pure function
  from the store, the sender's id and the request payload to a `Step`: the
  store afterwards, the verdict sent back to the sender, and the broadcasts
  sent to other users. The store's reads hand out copies, so a handler sees
  the store as it was when the request arrived and changes it only through
  its writes.
 */
module Handlers {
  import opened Wrappers
  import opened JsonValue
  import opened Entities
  import opened Protocol
  import opened Store
  import opened TeamAssignment

  datatype Step = Step(store: Store, outcome: Outcome, outbox: seq<Notification>)

  function Reject(s: Store, e: ErrorKind): Step {
    Step(s, Failure(e), [])
  }

  /** A failed request leaves the store as it was and notifies nobody. */
  predicate Harmless(r: Step, s: Store) {
    r.outcome.Failure? ==> r.store == s && r.outbox == []
  }

  /**
    Reads the id under `key` the way the lookup handlers do: the payload must
    be a dict, the value truthy, and the value a string that parses as a UUID.
    A parse failure (ValueError) is an invalid value; every other exception
    is an internal error.
   */
  function RequestedId(parse: UuidParser, data: Json, key: string): (r: Result<Id, ErrorKind>)
    ensures r.Ok? <==> data.JObject? && key in data.fields && Truthy(data.fields[key]) && ToId(parse, data.fields[key]).Ok?
    ensures r.Ok? ==> data.fields[key].JStr? && parse(data.fields[key].s) == Some(r.value)
    ensures !data.JObject? ==> r == Err(Internal)
    ensures data.JObject? && (key !in data.fields || !Truthy(data.fields[key])) ==> r == Err(MissingField)
    ensures data.JObject? && key in data.fields && Truthy(data.fields[key]) && data.fields[key].JStr? && r.Err? ==> r.error == InvalidValue
    ensures data.JObject? && key in data.fields && Truthy(data.fields[key]) && !data.fields[key].JStr? ==> r == Err(Internal)
  {
    match Get(data, key)
    case Err(_) => Err(Internal)
    case Ok(v) =>
      if !Truthy(v) then Err(MissingField)
      else
        match ToId(parse, v)
        case Ok(id) => Ok(id)
        case Err(e) => Err(ValueErrorKind(e))
  }

  // ---------------------------------------------------------------- users

  /** `handle_get_user_info`: looks up the user the payload names. Nothing changes. */
  function HandleGetUserInfo(parse: UuidParser, s: Store, data: Json): (r: Step)
    ensures r.store == s && r.outbox == []
    ensures r.outcome.Success? <==> RequestedId(parse, data, USER_ID).Ok? && RequestedId(parse, data, USER_ID).value in s.users
    ensures r.outcome.Success? ==> r.outcome.data == UserRecord(s.users[RequestedId(parse, data, USER_ID).value])
    ensures RequestedId(parse, data, USER_ID).Err? ==> r.outcome == Failure(RequestedId(parse, data, USER_ID).error)
    ensures RequestedId(parse, data, USER_ID).Ok? && r.outcome.Failure? ==> r.outcome.error == NotFound
  {
    match RequestedId(parse, data, USER_ID)
    case Err(e) => Reject(s, e)
    case Ok(id) =>
      if id in s.users then Step(s, Success(UserRecord(s.users[id])), []) else Reject(s, NotFound)
  }

  /** The record `set_user_info` stores: the sender's id, the sent name and picture, and the group the sender already had. */
  function UpdatedUser(s: Store, sender: Id, name: Json, image: Json): User {
    User(sender, name, image, if sender in s.users then s.users[sender].groupId else None)
  }

  /**
    `handle_set_user_info`: creates or replaces the sender's record from the
    payload's name and picture. The client cannot choose the id or the group:
    both are overridden with the sender's id and current group. Members of
    the sender's group, if that group exists, hear about the change.
   */
  function HandleSetUserInfo(s: Store, sender: Id, data: Json): (r: Step)
    ensures Harmless(r, s)
    ensures r.outcome.Success? <==> data.JObject? && USER_NAME in data.fields && USER_IMAGE in data.fields
    ensures r.outcome.Failure? ==> r.outcome.error == UserUpdateFailed
    ensures r.outcome.Success? ==>
      && r.outcome.data == UserIdOnly(sender)
      && GetUser(r.store, sender) == Some(User(sender, data.fields[USER_NAME], data.fields[USER_IMAGE],
                                              if sender in s.users then s.users[sender].groupId else None))
      && (forall id | id != sender :: GetUser(r.store, id) == GetUser(s, id))
      && r.store.groups == s.groups && r.store.teams == s.teams
    ensures r.outcome.Success? && sender in s.users && GetGroupOf(s, s.users[sender].groupId).Some? ==>
      r.outbox == [Notification(GetGroupOf(s, s.users[sender].groupId).value.members - {sender}, SetUserInfoType, UserRecord(r.store.users[sender]))]
    ensures r.outcome.Success? && !(sender in s.users && GetGroupOf(s, s.users[sender].groupId).Some?) ==> r.outbox == []
  {
    if !data.JObject? || USER_NAME !in data.fields || USER_IMAGE !in data.fields then Reject(s, UserUpdateFailed)
    else
      var u := UpdatedUser(s, sender, data.fields[USER_NAME], data.fields[USER_IMAGE]);
      var outbox :=
        if sender in s.users && GetGroupOf(s, s.users[sender].groupId).Some? then
          [Notification(GetGroupOf(s, s.users[sender].groupId).value.members - {sender}, SetUserInfoType, UserRecord(u))]
        else [];
      Step(AddOrUpdateUser(s, u), Success(UserIdOnly(sender)), outbox)
  }

  // ---------------------------------------------------------------- groups

  /** `handle_get_group_info`: looks up the group the payload names. Nothing changes. */
  function HandleGetGroupInfo(parse: UuidParser, s: Store, data: Json): (r: Step)
    ensures r.store == s && r.outbox == []
    ensures r.outcome.Success? <==> RequestedId(parse, data, GROUP_ID).Ok? && RequestedId(parse, data, GROUP_ID).value in s.groups
    ensures r.outcome.Success? ==> r.outcome.data == GroupView(s.groups[RequestedId(parse, data, GROUP_ID).value])
    ensures RequestedId(parse, data, GROUP_ID).Err? ==> r.outcome == Failure(RequestedId(parse, data, GROUP_ID).error)
    ensures RequestedId(parse, data, GROUP_ID).Ok? && r.outcome.Failure? ==> r.outcome.error == NotFound
  {
    match RequestedId(parse, data, GROUP_ID)
    case Err(e) => Reject(s, e)
    case Ok(id) =>
      if id in s.groups then Step(s, Success(GroupView(s.groups[id])), []) else Reject(s, NotFound)
  }

  /**
    The admin's branch of `handle_set_group_info`: only the name changes,
    read with `data[groupName]`, so a payload that is not a dict is a
    TypeError (reported as an invalid value) and a missing name a KeyError.
    The other members are told the new group record.
   */
  function RenameGroup(s: Store, sender: Id, g: Group, data: Json): (r: Step)
    requires KeysMatch(s) && g.id in s.groups && s.groups[g.id] == g
    ensures Harmless(r, s)
    ensures r.outcome.Success? <==> g.adminId == sender && data.JObject? && GROUP_NAME in data.fields
    ensures g.adminId != sender ==> r.outcome == Failure(NotAdmin)
    ensures g.adminId == sender && !data.JObject? ==> r.outcome == Failure(InvalidValue)
    ensures g.adminId == sender && data.JObject? && GROUP_NAME !in data.fields ==> r.outcome == Failure(MissingField)
    ensures r.outcome.Success? ==>
      && r.outcome.data == NoData
      && GetGroup(r.store, g.id) == Some(g.(name := data.fields[GROUP_NAME]))
      && (forall id | id != g.id :: GetGroup(r.store, id) == GetGroup(s, id))
      && r.store.users == s.users && r.store.teams == s.teams
      && r.outbox == [Notification(g.members - {sender}, SetGroupInfoType, GroupView(g.(name := data.fields[GROUP_NAME])))]
  {
    if g.adminId != sender then Reject(s, NotAdmin)
    else
      match Index(data, GROUP_NAME)
      case Err(e) => Reject(s, if e == KeyErr then MissingField else InvalidValue)
      case Ok(name) =>
        var renamed := g.(name := name);
        Step(AddOrUpdateGroup(s, renamed), Success(NoData), [Notification(g.members - {sender}, SetGroupInfoType, GroupView(renamed))])
  }

  /**
    The creating branch of `handle_set_group_info`, for a sender in no group.
    The client chooses the new group's id; the sender becomes its admin and
    only member. The id is read first: a missing key is a KeyError, None a
    TypeError, an unparsable string a ValueError, and any other value has no
    string methods (an unexpected exception). A payload that is not a dict
    cannot be merged with the admin id (TypeError). No existence check is
    made on the chosen id: an existing group with that id is replaced.
   */
  function CreateGroup(parse: UuidParser, s: Store, sender: Id, data: Json): (r: Step)
    requires KeysMatch(s) && sender in s.users
    ensures Harmless(r, s)
    ensures r.outbox == []
    ensures r.outcome.Success? <==>
      data.JObject? && GROUP_ID in data.fields && ToId(parse, data.fields[GROUP_ID]).Ok? && GROUP_NAME in data.fields
    ensures !data.JObject? ==> r.outcome == Failure(InvalidValue)
    ensures data.JObject? && GROUP_ID !in data.fields ==> r.outcome == Failure(MissingField)
    ensures (data.JObject? && GROUP_ID in data.fields && (data.fields[GROUP_ID].JNull? || data.fields[GROUP_ID].JStr?) &&
      ToId(parse, data.fields[GROUP_ID]).Err?) ==> r.outcome == Failure(InvalidValue)
    ensures (data.JObject? && GROUP_ID in data.fields && !data.fields[GROUP_ID].JNull? && !data.fields[GROUP_ID].JStr?) ==>
      r.outcome == Failure(Internal)
    ensures (data.JObject? && GROUP_ID in data.fields && ToId(parse, data.fields[GROUP_ID]).Ok? &&
      GROUP_NAME !in data.fields) ==> r.outcome == Failure(MissingField)
    ensures r.outcome.Success? ==>
      var gid := ToId(parse, data.fields[GROUP_ID]).value;
      && r.outcome.data == NoData
      && GetGroup(r.store, gid) == Some(Group(gid, sender, data.fields[GROUP_NAME], {sender}))
      && (forall id | id != gid :: GetGroup(r.store, id) == GetGroup(s, id))
      && GetUser(r.store, sender) == Some(s.users[sender].(groupId := Some(gid)))
      && (forall id | id != sender :: GetUser(r.store, id) == GetUser(s, id))
      && r.store.teams == s.teams
  {
    if !data.JObject? then Reject(s, InvalidValue)
    else if GROUP_ID !in data.fields then Reject(s, MissingField)
    else
      match ToId(parse, data.fields[GROUP_ID])
      case Err(e) => Reject(s, if e == AttributeErr then Internal else InvalidValue)
      case Ok(gid) =>
        if GROUP_NAME !in data.fields then Reject(s, MissingField)
        else
          var g := Group(gid, sender, data.fields[GROUP_NAME], {sender});
          Step(AddOrUpdateUser(AddOrUpdateGroup(s, g), s.users[sender].(groupId := Some(gid))), Success(NoData), [])
  }

  /**
    `handle_set_group_info`: a sender in a group renames it (admins only); a
    sender in no group creates one. An unknown sender, or a sender whose
    group is gone, is an internal error.
   */
  function HandleSetGroupInfo(parse: UuidParser, s: Store, sender: Id, data: Json): (r: Step)
    requires KeysMatch(s)
    ensures Harmless(r, s)
    ensures sender !in s.users ==> r.outcome == Failure(Internal)
    ensures sender in s.users && s.users[sender].groupId.Some? && s.users[sender].groupId.value !in s.groups ==>
      r.outcome == Failure(Internal)
    ensures sender in s.users && s.users[sender].groupId.Some? && s.users[sender].groupId.value in s.groups ==>
      r == RenameGroup(s, sender, s.groups[s.users[sender].groupId.value], data)
    ensures sender in s.users && s.users[sender].groupId.None? ==> r == CreateGroup(parse, s, sender, data)
  {
    if sender !in s.users then Reject(s, Internal)
    else
      var u := s.users[sender];
      if u.groupId.Some? then
        if u.groupId.value !in s.groups then Reject(s, Internal)
        else RenameGroup(s, sender, s.groups[u.groupId.value], data)
      else CreateGroup(parse, s, sender, data)
  }

  /**
    `handle_join_group`: the sender joins the group the payload names, if
    they are in no group yet. The group's other members are told who joined.
   */
  function HandleJoinGroup(parse: UuidParser, s: Store, sender: Id, data: Json): (r: Step)
    requires KeysMatch(s)
    ensures Harmless(r, s)
    ensures r.outcome.Success? <==>
      && RequestedId(parse, data, GROUP_ID).Ok?
      && RequestedId(parse, data, GROUP_ID).value in s.groups
      && sender in s.users && s.users[sender].groupId.None?
    ensures RequestedId(parse, data, GROUP_ID).Err? ==> r.outcome == Failure(RequestedId(parse, data, GROUP_ID).error)
    ensures RequestedId(parse, data, GROUP_ID).Ok? && RequestedId(parse, data, GROUP_ID).value !in s.groups ==>
      r.outcome == Failure(NotFound)
    ensures (RequestedId(parse, data, GROUP_ID).Ok? && RequestedId(parse, data, GROUP_ID).value in s.groups &&
      sender in s.users && s.users[sender].groupId.Some?) ==> r.outcome == Failure(AlreadyGroupMember)
    ensures r.outcome.Success? ==>
      var gid := RequestedId(parse, data, GROUP_ID).value;
      var g := s.groups[gid];
      && r.outcome.data == NoData
      && GetGroup(r.store, gid) == Some(g.(members := g.members + {sender}))
      && (forall id | id != gid :: GetGroup(r.store, id) == GetGroup(s, id))
      && GetUser(r.store, sender) == Some(s.users[sender].(groupId := Some(gid)))
      && (forall id | id != sender :: GetUser(r.store, id) == GetUser(s, id))
      && r.store.teams == s.teams
      && r.outbox == [Notification(g.members - {sender}, JoinGroupType, UserIdOnly(sender))]
  {
    match RequestedId(parse, data, GROUP_ID)
    case Err(e) => Reject(s, e)
    case Ok(gid) =>
      if gid !in s.groups then Reject(s, NotFound)
      else if sender !in s.users then Reject(s, Internal)
      else if s.users[sender].groupId.Some? then Reject(s, AlreadyGroupMember)
      else
        var g := s.groups[gid];
        var joined := g.(members := g.members + {sender});
        var s1 := AddOrUpdateGroup(s, joined);
        assert joined.members - {sender} == g.members - {sender};
        Step(AddOrUpdateUser(s1, s.users[sender].(groupId := Some(gid))), Success(NoData),
             [Notification(joined.members - {sender}, JoinGroupType, UserIdOnly(sender))])
  }

  /**
    `handle_leave_group`: a member other than the admin leaves their group.
    The payload is not read. The remaining members are told who left.
   */
  function HandleLeaveGroup(s: Store, sender: Id): (r: Step)
    requires KeysMatch(s)
    ensures Harmless(r, s)
    ensures r.outcome.Success? <==>
      && sender in s.users && s.users[sender].groupId.Some?
      && s.users[sender].groupId.value in s.groups
      && s.groups[s.users[sender].groupId.value].adminId != sender
      && sender in s.groups[s.users[sender].groupId.value].members
    ensures sender !in s.users ==> r.outcome == Failure(Internal)
    ensures sender in s.users && s.users[sender].groupId.None? ==> r.outcome == Failure(NotGroupMember)
    ensures sender in s.users && s.users[sender].groupId.Some? && s.users[sender].groupId.value !in s.groups ==>
      r.outcome == Failure(NotFound)
    ensures (sender in s.users && s.users[sender].groupId.Some? && s.users[sender].groupId.value in s.groups &&
      s.groups[s.users[sender].groupId.value].adminId == sender) ==> r.outcome == Failure(AdminCannotLeave)
    ensures r.outcome.Success? ==>
      var gid := s.users[sender].groupId.value;
      var g := s.groups[gid];
      && r.outcome.data == NoData
      && GetGroup(r.store, gid) == Some(g.(members := g.members - {sender}))
      && (forall id | id != gid :: GetGroup(r.store, id) == GetGroup(s, id))
      && GetUser(r.store, sender) == Some(s.users[sender].(groupId := None))
      && (forall id | id != sender :: GetUser(r.store, id) == GetUser(s, id))
      && r.store.teams == s.teams
      && r.outbox == [Notification(g.members - {sender}, LeaveGroupType, UserIdOnly(sender))]
  {
    if sender !in s.users then Reject(s, Internal)
    else
      var u := s.users[sender];
      if u.groupId.None? then Reject(s, NotGroupMember)
      else if u.groupId.value !in s.groups then Reject(s, NotFound)
      else
        var g := s.groups[u.groupId.value];
        if g.adminId == sender then Reject(s, AdminCannotLeave)
        else if sender !in g.members then Reject(s, Internal)
        else
          var left := g.(members := g.members - {sender});
          var s1 := AddOrUpdateGroup(s, left);
          Step(AddOrUpdateUser(s1, u.(groupId := None)), Success(NoData),
               [Notification(left.members, LeaveGroupType, UserIdOnly(sender))])
  }

  /** The users table after every stored user in `ids` has been taken out of their group. */
  function Detach(users: map<Id, User>, ids: set<Id>): map<Id, User> {
    map id | id in users :: if id in ids then users[id].(groupId := None) else users[id]
  }

  /**
    The member loop of `handle_delete_group`, one member at a time: a member
    with a stored record is taken out of the group, a member without one is
    skipped. The visiting order does not matter.
   */
  method DetachAll(users: map<Id, User>, ids: set<Id>) returns (r: map<Id, User>)
    ensures r.Keys == users.Keys
    ensures forall id | id in ids && id in users :: r[id] == users[id].(groupId := None)
    ensures forall id | id !in ids && id in users :: r[id] == users[id]
    ensures r == Detach(users, ids)
  {
    r := users;
    var todo := ids;
    while todo != {}
      invariant todo <= ids
      invariant r.Keys == users.Keys
      invariant forall id | id in ids - todo && id in users :: r[id] == users[id].(groupId := None)
      invariant forall id | (id !in ids || id in todo) && id in users :: r[id] == users[id]
      decreases todo
    {
      var m :| m in todo;
      if m in r {
        r := r[m := r[m].(groupId := None)];
      }
      todo := todo - {m};
    }
  }

  /**
    `handle_delete_group`: the admin dissolves their group. Every member is
    notified and every stored member, the admin included, is left in no
    group; the group record goes, but its teams stay in the store.
   */
  function HandleDeleteGroup(s: Store, sender: Id): (r: Step)
    requires KeysMatch(s)
    ensures Harmless(r, s)
    ensures r.outcome.Success? <==>
      && sender in s.users
      && GetGroupOf(s, s.users[sender].groupId).Some?
      && GetGroupOf(s, s.users[sender].groupId).value.adminId == sender
      && sender in GetGroupOf(s, s.users[sender].groupId).value.members
    ensures sender !in s.users ==> r.outcome == Failure(Internal)
    ensures sender in s.users && GetGroupOf(s, s.users[sender].groupId).None? ==> r.outcome == Failure(NotFound)
    ensures (sender in s.users && GetGroupOf(s, s.users[sender].groupId).Some? &&
      GetGroupOf(s, s.users[sender].groupId).value.adminId != sender) ==> r.outcome == Failure(NotAdmin)
    ensures r.outcome.Success? ==>
      var g := GetGroupOf(s, s.users[sender].groupId).value;
      && r.outcome.data == NoData
      && GetGroup(r.store, g.id).None?
      && (forall id | id != g.id :: GetGroup(r.store, id) == GetGroup(s, id))
      && r.store.users.Keys == s.users.Keys
      && (forall id | id in s.users && id in g.members :: r.store.users[id] == s.users[id].(groupId := None))
      && (forall id | id in s.users && id !in g.members :: r.store.users[id] == s.users[id])
      && r.store.teams == s.teams
      && r.outbox == [Notification(g.members - {sender}, DeleteGroupType, NoData)]
  {
    if sender !in s.users then Reject(s, Internal)
    else
      var u := s.users[sender];
      match GetGroupOf(s, u.groupId)
      case None => Reject(s, NotFound)
      case Some(g) =>
        if g.adminId != sender then Reject(s, NotAdmin)
        else if sender !in g.members then Reject(s, Internal)
        else
          var others := g.members - {sender};
          var detached := s.(users := Detach(s.users, others));
          var s1 := AddOrUpdateUser(detached, u.(groupId := None));
          assert u.groupId.Some? && u.groupId.value in s.groups;
          match DeleteGroup(s1, g.id)
          case Err(e) => Reject(s, e)
          case Ok(s2) => Step(s2, Success(NoData), [Notification(others, DeleteGroupType, NoData)])
  }

  // ---------------------------------------------------------------- teams

  /** `handle_get_teams`: the teams stored for the sender's group. Nothing changes. */
  function HandleGetTeams(s: Store, sender: Id): (r: Step)
    ensures r.store == s && r.outbox == []
    ensures r.outcome.Success? <==> sender in s.users && s.users[sender].groupId.Some? && s.users[sender].groupId.value in s.groups
    ensures sender !in s.users ==> r.outcome == Failure(Internal)
    ensures sender in s.users && s.users[sender].groupId.None? ==> r.outcome == Failure(NotGroupMember)
    ensures sender in s.users && s.users[sender].groupId.Some? && s.users[sender].groupId.value !in s.groups ==>
      r.outcome == Failure(Internal)
    ensures r.outcome.Success? ==> r.outcome.data.TeamSet?
    ensures r.outcome.Success? ==>
      forall t :: t in r.outcome.data.teams <==> t in s.teams.Values && Some(t.groupId) == s.users[sender].groupId
  {
    if sender !in s.users then Reject(s, Internal)
    else
      match s.users[sender].groupId
      case None => Reject(s, NotGroupMember)
      case Some(gid) =>
        match GetGroupTeams(s, gid)
        case Err(_) => Reject(s, Internal)
        case Ok(ts) => Step(s, Success(TeamSet(ts)), [])
  }

  /**
    The part of `handle_set_teams` after the admin checks: read and validate
    every submitted team against the group's members, insist that nobody is
    left without a team, then store the teams and tell the other members.
    Nothing is stored unless the whole request is valid.
   */
  function AssignTeams(parse: UuidParser, s: Store, sender: Id, gid: Id, members: set<Id>, data: Json): (r: Step)
    ensures Harmless(r, s)
    ensures r.store.users == s.users && r.store.groups == s.groups
    ensures !Elements(data).Ok? ==> r.outcome == Failure(Internal)
    ensures r.outcome.Success? ==> r.outcome.data == NoData && |r.outbox| == 1
  {
    match Elements(data)
    case Err(_) => Reject(s, Internal)
    case Ok(raws) =>
      match Collect(parse, gid, raws, Pool(members, {}))
      case Err(e) => Reject(s, e)
      case Ok(c) =>
        if c.pool.unassignedMembers != {} then Reject(s, MembersWithoutTeam)
        else
          Step(WriteTeams(s, c.teams), Success(NoData),
               [Notification(c.pool.assignedMembers - {sender}, SetTeamsType, TeamList(c.teams))])
  }

  /** `handle_set_teams`: the admin of a group submits its teams. */
  function HandleSetTeams(parse: UuidParser, s: Store, sender: Id, data: Json): (r: Step)
    ensures Harmless(r, s)
    ensures r.store.users == s.users && r.store.groups == s.groups
    ensures sender !in s.users ==> r.outcome == Failure(Internal)
    ensures sender in s.users && s.users[sender].groupId.None? ==> r.outcome == Failure(NotGroupMember)
    ensures sender in s.users && s.users[sender].groupId.Some? && s.users[sender].groupId.value !in s.groups ==>
      r.outcome == Failure(NotFound)
    ensures (sender in s.users && s.users[sender].groupId.Some? && s.users[sender].groupId.value in s.groups &&
      s.groups[s.users[sender].groupId.value].adminId != sender) ==> r.outcome == Failure(NotAdmin)
    ensures r.outcome.Success? ==> r.outcome.data == NoData
  {
    if sender !in s.users then Reject(s, Internal)
    else
      match s.users[sender].groupId
      case None => Reject(s, NotGroupMember)
      case Some(gid) =>
        if gid !in s.groups then Reject(s, NotFound)
        else if s.groups[gid].adminId != sender then Reject(s, NotAdmin)
        else AssignTeams(parse, s, sender, gid, s.groups[gid].members, data)
  }
}
