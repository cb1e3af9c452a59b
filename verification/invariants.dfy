/**
  What keeps the store coherent across requests: every record sits under
  its own key, every admin belongs to their group, and group membership is
  recorded the same way on both sides (the group's member set and each
  user's group id). The lemmas show which requests keep each property and
  exhibit the one request that can break the last.
 */
module Invariants {
  import opened Wrappers
  import opened JsonValue
  import opened Entities
  import opened Protocol
  import opened Store
  import opened TeamAssignment
  import opened Handlers
  import opened Dispatcher

  ghost predicate AdminsAreMembers(s: Store) {
    forall gid | gid in s.groups :: s.groups[gid].adminId in s.groups[gid].members
  }

  /** Each member of a group is a user whose group is that group, and each user in a group is among its members. */
  ghost predicate MembershipAgrees(s: Store) {
    && (forall gid, m | gid in s.groups && m in s.groups[gid].members :: m in s.users && s.users[m].groupId == Some(gid))
    && (forall uid | uid in s.users && s.users[uid].groupId.Some? ::
          s.users[uid].groupId.value in s.groups && uid in s.groups[s.users[uid].groupId.value].members)
  }

  ghost predicate Consistent(s: Store) {
    KeysMatch(s) && AdminsAreMembers(s) && MembershipAgrees(s)
  }

  /**
    What a new connection does to the store: a user with a fresh id, no
    name, no picture and no group is added.
   */
  function Connect(s: Store, id: Id): (r: Store)
    ensures GetUser(r, id) == Some(NewUser(id))
    ensures forall other | other != id :: GetUser(r, other) == GetUser(s, other)
    ensures r.groups == s.groups && r.teams == s.teams
  {
    AddOrUpdateUser(s, NewUser(id))
  }

  /** A connection stores the new user under its own id, so records stay under their own keys. */
  lemma ConnectKeepsKeysMatch(s: Store, id: Id)
    requires KeysMatch(s)
    ensures KeysMatch(Connect(s, id))
  {
  }

  lemma EmptyIsConsistent()
    ensures Consistent(Empty)
  {
  }

  /** A connection with an id nobody has keeps the store coherent. */
  lemma ConnectPreserves(s: Store, id: Id)
    requires Consistent(s) && id !in s.users
    ensures Consistent(Connect(s, id))
  {
    var r := Connect(s, id);
    forall gid, m | gid in r.groups && m in r.groups[gid].members
      ensures m in r.users && r.users[m].groupId == Some(gid)
    {
      assert m in s.users;
    }
  }

  /** Writing teams keeps every team under its own (group, number) key. */
  lemma {:induction false} WriteTeamsKeysMatch(s: Store, teams: seq<Team>)
    requires KeysMatch(s)
    ensures KeysMatch(WriteTeams(s, teams))
    decreases |teams|
  {
    if |teams| > 0 {
      WriteTeamsKeysMatch(s, teams[..|teams| - 1]);
    }
  }

  lemma SetUserInfoPreserves(s: Store, sender: Id, data: Json)
    requires Consistent(s)
    ensures Consistent(HandleSetUserInfo(s, sender, data).store)
  {
    var r := HandleSetUserInfo(s, sender, data);
    if r.outcome.Success? {
      var t := r.store;
      forall gid, m | gid in t.groups && m in t.groups[gid].members
        ensures m in t.users && t.users[m].groupId == Some(gid)
      {
        assert GetUser(t, m).Some?;
      }
      forall uid | uid in t.users && t.users[uid].groupId.Some?
        ensures t.users[uid].groupId.value in t.groups && uid in t.groups[t.users[uid].groupId.value].members
      {
        assert GetUser(t, uid) == GetUser(s, uid) || uid == sender;
      }
    }
  }

  lemma RenamePreserves(s: Store, sender: Id, g: Group, data: Json)
    requires Consistent(s) && g.id in s.groups && s.groups[g.id] == g
    ensures Consistent(RenameGroup(s, sender, g, data).store)
  {
    var r := RenameGroup(s, sender, g, data);
    if r.outcome.Success? {
      var t := r.store;
      assert forall gid | gid in t.groups :: t.groups[gid].members == s.groups[gid].members && t.groups[gid].adminId == s.groups[gid].adminId by {
        forall gid | gid in t.groups
          ensures t.groups[gid].members == s.groups[gid].members && t.groups[gid].adminId == s.groups[gid].adminId
        {
          assert GetGroup(t, gid).Some?;
        }
      }
    }
  }

  /** A group created under an id no group has keeps the store coherent. */
  lemma CreatePreserves(parse: UuidParser, s: Store, sender: Id, data: Json)
    requires Consistent(s) && sender in s.users && s.users[sender].groupId.None?
    requires data.JObject? && GROUP_ID in data.fields && ToId(parse, data.fields[GROUP_ID]).Ok? ==>
      ToId(parse, data.fields[GROUP_ID]).value !in s.groups
    ensures Consistent(CreateGroup(parse, s, sender, data).store)
  {
    var r := CreateGroup(parse, s, sender, data);
    if r.outcome.Success? {
      var gid := ToId(parse, data.fields[GROUP_ID]).value;
      var t := r.store;
      forall g | g in t.groups
        ensures t.groups[g].adminId in t.groups[g].members
      {
        assert GetGroup(t, g).Some?;
      }
      forall g, m | g in t.groups && m in t.groups[g].members
        ensures m in t.users && t.users[m].groupId == Some(g)
      {
        assert GetGroup(t, g).Some?;
        if g != gid {
          assert m in s.groups[g].members;
          assert m != sender;
          assert GetUser(t, m) == GetUser(s, m);
        }
      }
      forall uid | uid in t.users && t.users[uid].groupId.Some?
        ensures t.users[uid].groupId.value in t.groups && uid in t.groups[t.users[uid].groupId.value].members
      {
        assert GetUser(t, uid).Some?;
        if uid != sender {
          assert GetUser(t, uid) == GetUser(s, uid);
          var g := s.users[uid].groupId.value;
          assert GetGroup(t, g) == GetGroup(s, g);
        }
      }
      assert KeysMatch(t) by {
        forall id | id in t.users ensures t.users[id].id == id {
          assert GetUser(t, id).Some?;
        }
        forall id | id in t.groups ensures t.groups[id].id == id {
          assert GetGroup(t, id).Some?;
        }
      }
    }
  }

  lemma JoinPreserves(parse: UuidParser, s: Store, sender: Id, data: Json)
    requires Consistent(s)
    ensures Consistent(HandleJoinGroup(parse, s, sender, data).store)
  {
    var r := HandleJoinGroup(parse, s, sender, data);
    if r.outcome.Success? {
      var gid := RequestedId(parse, data, GROUP_ID).value;
      var t := r.store;
      assert sender !in s.groups[gid].members;
      forall g | g in t.groups
        ensures t.groups[g].adminId in t.groups[g].members
      {
        assert GetGroup(t, g).Some?;
      }
      forall g, m | g in t.groups && m in t.groups[g].members
        ensures m in t.users && t.users[m].groupId == Some(g)
      {
        assert GetGroup(t, g).Some?;
        if m != sender {
          assert m in s.groups[g].members;
          assert GetUser(t, m) == GetUser(s, m);
        }
      }
      forall uid | uid in t.users && t.users[uid].groupId.Some?
        ensures t.users[uid].groupId.value in t.groups && uid in t.groups[t.users[uid].groupId.value].members
      {
        assert GetUser(t, uid).Some?;
        if uid != sender {
          assert GetUser(t, uid) == GetUser(s, uid);
          var g := s.users[uid].groupId.value;
          assert GetGroup(t, g).Some?;
        }
      }
      assert KeysMatch(t) by {
        forall id | id in t.users ensures t.users[id].id == id {
          assert GetUser(t, id).Some?;
        }
        forall id | id in t.groups ensures t.groups[id].id == id {
          assert GetGroup(t, id).Some?;
        }
      }
    }
  }

  lemma LeavePreserves(s: Store, sender: Id)
    requires Consistent(s)
    ensures Consistent(HandleLeaveGroup(s, sender).store)
  {
    var r := HandleLeaveGroup(s, sender);
    if r.outcome.Success? {
      var gid := s.users[sender].groupId.value;
      var t := r.store;
      forall g | g in t.groups
        ensures t.groups[g].adminId in t.groups[g].members
      {
        assert GetGroup(t, g).Some?;
      }
      forall g, m | g in t.groups && m in t.groups[g].members
        ensures m in t.users && t.users[m].groupId == Some(g)
      {
        assert GetGroup(t, g).Some?;
        assert m != sender;
        assert m in s.groups[g].members;
        assert GetUser(t, m) == GetUser(s, m);
      }
      forall uid | uid in t.users && t.users[uid].groupId.Some?
        ensures t.users[uid].groupId.value in t.groups && uid in t.groups[t.users[uid].groupId.value].members
      {
        assert GetUser(t, uid).Some?;
        assert uid != sender;
        assert GetUser(t, uid) == GetUser(s, uid);
        var g := s.users[uid].groupId.value;
        assert GetGroup(t, g).Some?;
      }
      assert KeysMatch(t) by {
        forall id | id in t.users ensures t.users[id].id == id {
          assert GetUser(t, id).Some?;
        }
        forall id | id in t.groups ensures t.groups[id].id == id {
          assert GetGroup(t, id).Some?;
        }
      }
    }
  }

  lemma DeletePreserves(s: Store, sender: Id)
    requires Consistent(s)
    ensures Consistent(HandleDeleteGroup(s, sender).store)
  {
    var r := HandleDeleteGroup(s, sender);
    if r.outcome.Success? {
      var g := GetGroupOf(s, s.users[sender].groupId).value;
      var t := r.store;
      forall h | h in t.groups
        ensures t.groups[h].adminId in t.groups[h].members
      {
        assert GetGroup(t, h).Some?;
      }
      forall h, m | h in t.groups && m in t.groups[h].members
        ensures m in t.users && t.users[m].groupId == Some(h)
      {
        assert GetGroup(t, h) == GetGroup(s, h);
        assert m !in g.members;
      }
      forall uid | uid in t.users && t.users[uid].groupId.Some?
        ensures t.users[uid].groupId.value in t.groups && uid in t.groups[t.users[uid].groupId.value].members
      {
        assert uid !in g.members;
        var h := s.users[uid].groupId.value;
        assert h != g.id;
        assert GetGroup(t, h) == GetGroup(s, h);
      }
      assert KeysMatch(t) by {
        forall id | id in t.groups ensures t.groups[id].id == id {
          assert GetGroup(t, id).Some?;
        }
      }
    }
  }

  lemma SetTeamsPreserves(parse: UuidParser, s: Store, sender: Id, data: Json)
    requires Consistent(s)
    ensures Consistent(HandleSetTeams(parse, s, sender, data).store)
  {
    var r := HandleSetTeams(parse, s, sender, data);
    if r.outcome.Success? {
      var gid := s.users[sender].groupId.value;
      var raws := Elements(data).value;
      var c := Collect(parse, gid, raws, Pool(s.groups[gid].members, {})).value;
      WriteTeamsKeysMatch(s, c.teams);
    }
  }

  /**
    Every request keeps each record under its own key, whatever the store's
    other properties; this is what every handler relies on when it writes
    back a record it read.
   */
  lemma KeysMatchAlways(parse: UuidParser, s: Store, sender: Id, msg: Message)
    requires KeysMatch(s)
    ensures KeysMatch(HandleMessage(parse, s, sender, msg).store)
  {
    var r := HandleMessage(parse, s, sender, msg);
    var t := r.store;
    if r.response.outcome.Success? {
      var k := ParseType(msg.typeTag).value;
      if k == SetTeamsType {
        var gid := s.users[sender].groupId.value;
        var raws := Elements(msg.data).value;
        var c := Collect(parse, gid, raws, Pool(s.groups[gid].members, {})).value;
        WriteTeamsKeysMatch(s, c.teams);
      } else {
        assert t.teams == s.teams;
        forall id | id in t.users ensures t.users[id].id == id {
          assert GetUser(t, id).Some?;
        }
        forall id | id in t.groups ensures t.groups[id].id == id {
          assert GetGroup(t, id).Some?;
        }
      }
    }
  }

  /** A request that creates a group under the id of a group that already exists. */
  ghost predicate ReusesGroupId(parse: UuidParser, s: Store, sender: Id, msg: Message) {
    && ParseType(msg.typeTag) == Some(SetGroupInfoType)
    && sender in s.users && s.users[sender].groupId.None?
    && msg.data.JObject? && GROUP_ID in msg.data.fields
    && ToId(parse, msg.data.fields[GROUP_ID]).Ok?
    && ToId(parse, msg.data.fields[GROUP_ID]).value in s.groups
  }

  /**
    Every request keeps the store coherent, except one that creates a group
    under an id already in use.
   */
  lemma HandleMessagePreserves(parse: UuidParser, s: Store, sender: Id, msg: Message)
    requires Consistent(s)
    requires !ReusesGroupId(parse, s, sender, msg)
    ensures Consistent(HandleMessage(parse, s, sender, msg).store)
  {
    match ParseType(msg.typeTag)
    case None =>
    case Some(t) =>
      var data := msg.data;
      match t {
        case SetUserInfoType => SetUserInfoPreserves(s, sender, data);
        case SetGroupInfoType =>
          if sender in s.users {
            var u := s.users[sender];
            if u.groupId.Some? {
              if u.groupId.value in s.groups {
                RenamePreserves(s, sender, s.groups[u.groupId.value], data);
              }
            } else {
              CreatePreserves(parse, s, sender, data);
            }
          }
        case JoinGroupType => JoinPreserves(parse, s, sender, data);
        case LeaveGroupType => LeavePreserves(s, sender);
        case DeleteGroupType => DeletePreserves(s, sender);
        case SetTeamsType => SetTeamsPreserves(parse, s, sender, data);
        case _ =>
      }
  }

  /**
    Admins stay put: an admin's own group is never left without them, since
    leaving is refused to the admin and deleting removes the group itself.
   */
  lemma AdminsAreMembersAlways(parse: UuidParser, s: Store, sender: Id, msg: Message)
    requires KeysMatch(s) && AdminsAreMembers(s)
    ensures AdminsAreMembers(HandleMessage(parse, s, sender, msg).store)
  {
    var r := HandleMessage(parse, s, sender, msg);
    var t := r.store;
    if r.response.outcome.Success? {
      forall g | g in t.groups
        ensures t.groups[g].adminId in t.groups[g].members
      {
        assert GetGroup(t, g).Some?;
        match ParseType(msg.typeTag)
        case None =>
        case Some(k) =>
          if k == SetGroupInfoType && sender in s.users && s.users[sender].groupId.Some? && s.users[sender].groupId.value in s.groups {
            assert t.groups[g].members == s.groups[g].members;
          }
      }
    }
  }

  /**
    The client-chosen id of a new group is not checked: creating a group
    under the id of an existing one replaces it, and the old group's admin is
    left pointing at a group that no longer lists them.
   */
  lemma CreateOverwritesExistingGroup(parse: UuidParser)
    requires parse("g") == Some(Id(0))
    ensures var s := Store(map[Id(1) := User(Id(1), JNull, JNull, Some(Id(0))), Id(2) := NewUser(Id(2))],
                           map[Id(0) := Group(Id(0), Id(1), JStr("old"), {Id(1)})],
                           map[]);
      var data := JObject(map[GROUP_ID := JStr("g"), GROUP_NAME := JStr("new")]);
      var r := HandleSetGroupInfo(parse, s, Id(2), data);
      && Consistent(s)
      && r.outcome.Success?
      && r.store.groups[Id(0)].adminId == Id(2)
      && r.store.users[Id(1)].groupId == Some(Id(0))
      && Id(1) !in r.store.groups[Id(0)].members
      && !Consistent(r.store)
  {
    var s := Store(map[Id(1) := User(Id(1), JNull, JNull, Some(Id(0))), Id(2) := NewUser(Id(2))],
                   map[Id(0) := Group(Id(0), Id(1), JStr("old"), {Id(1)})],
                   map[]);
    var data := JObject(map[GROUP_ID := JStr("g"), GROUP_NAME := JStr("new")]);
    assert data.fields[GROUP_ID] == JStr("g");
    var r := HandleSetGroupInfo(parse, s, Id(2), data);
    assert r.store.groups[Id(0)] == Group(Id(0), Id(2), JStr("new"), {Id(2)});
    assert r.store.users[Id(1)] == s.users[Id(1)];
  }
}
