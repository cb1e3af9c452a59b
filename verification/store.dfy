/**
  The entity store (`DB`): three finite maps holding users by id, groups by
  id and teams by (group id, team number). Records are values, so what a
  read returns is already an independent snapshot; the store changes only
  through the explicit writes below.
 */
module Store {
  import opened Wrappers
  import opened Entities
  import opened Protocol

  datatype Store = Store(users: map<Id, User>, groups: map<Id, Group>, teams: map<(Id, int), Team>)

  const Empty := Store(map[], map[], map[])

  /** `get_user`: the record stored under `id`, or None when there is none. */
  function GetUser(s: Store, id: Id): (r: Option<User>)
    ensures r.Some? <==> id in s.users
    ensures r.Some? ==> r.value == s.users[id]
  {
    if id in s.users then Some(s.users[id]) else None
  }

  /** `get_group`: the record stored under `id`, or None when there is none. */
  function GetGroup(s: Store, id: Id): (r: Option<Group>)
    ensures r.Some? <==> id in s.groups
    ensures r.Some? ==> r.value == s.groups[id]
  {
    if id in s.groups then Some(s.groups[id]) else None
  }

  /** `get_group(user.group_id)` where the group id may be None: `dict.get(None)` finds nothing. */
  function GetGroupOf(s: Store, id: Option<Id>): Option<Group> {
    if id.Some? then GetGroup(s, id.value) else None
  }

  /** `get_team`: the team stored under (group id, team number), or None when there is none. */
  function GetTeam(s: Store, groupId: Id, teamId: int): (r: Option<Team>)
    ensures r.Some? <==> (groupId, teamId) in s.teams
    ensures r.Some? ==> r.value == s.teams[(groupId, teamId)]
  {
    if (groupId, teamId) in s.teams then Some(s.teams[(groupId, teamId)]) else None
  }

  /** Stores `u` under its own id, replacing any previous record. */
  function AddOrUpdateUser(s: Store, u: User): (r: Store)
    ensures GetUser(r, u.id) == Some(u)
    ensures forall id | id != u.id :: GetUser(r, id) == GetUser(s, id)
    ensures r.users.Keys == s.users.Keys + {u.id}
    ensures r.groups == s.groups && r.teams == s.teams
  {
    s.(users := s.users[u.id := u])
  }

  /** Stores `g` under its own id, replacing any previous record. */
  function AddOrUpdateGroup(s: Store, g: Group): (r: Store)
    ensures GetGroup(r, g.id) == Some(g)
    ensures forall id | id != g.id :: GetGroup(r, id) == GetGroup(s, id)
    ensures r.groups.Keys == s.groups.Keys + {g.id}
    ensures r.users == s.users && r.teams == s.teams
  {
    s.(groups := s.groups[g.id := g])
  }

  /** Stores `t` under (its group, its number), replacing any previous team with that key. */
  function AddOrUpdateTeam(s: Store, t: Team): (r: Store)
    ensures GetTeam(r, t.groupId, t.id) == Some(t)
    ensures forall g, n | (g, n) != (t.groupId, t.id) :: GetTeam(r, g, n) == GetTeam(s, g, n)
    ensures r.users == s.users && r.groups == s.groups
  {
    s.(teams := s.teams[(t.groupId, t.id) := t])
  }

  /**
    Removes a group; deleting a missing one raises KeyError. The group's
    teams are left in place.
   */
  function DeleteGroup(s: Store, id: Id): (r: Result<Store, ErrorKind>)
    ensures r.Err? <==> id !in s.groups
    ensures r.Ok? ==> GetGroup(r.value, id).None?
    ensures r.Ok? ==> forall g | g != id :: GetGroup(r.value, g) == GetGroup(s, g)
    ensures r.Ok? ==> r.value.users == s.users && r.value.teams == s.teams
  {
    if id in s.groups then Ok(s.(groups := s.groups - {id})) else Err(NotFound)
  }

  /** Removes one team; deleting a missing one raises KeyError. */
  function DeleteTeam(s: Store, groupId: Id, teamId: int): (r: Result<Store, ErrorKind>)
    ensures r.Err? <==> GetTeam(s, groupId, teamId).None?
    ensures r.Ok? ==> GetTeam(r.value, groupId, teamId).None?
    ensures r.Ok? ==> forall g, n | (g, n) != (groupId, teamId) :: GetTeam(r.value, g, n) == GetTeam(s, g, n)
    ensures r.Ok? ==> r.value.users == s.users && r.value.groups == s.groups
  {
    if (groupId, teamId) in s.teams then Ok(s.(teams := s.teams - {(groupId, teamId)})) else Err(NotFound)
  }

  /**
    The teams of a group. A missing group is an error, distinct from a group
    that has no teams (an empty result).
   */
  function GetGroupTeams(s: Store, id: Id): (r: Result<set<Team>, ErrorKind>)
    ensures r.Err? <==> id !in s.groups
    ensures r.Ok? ==> forall t :: t in r.value <==> t in s.teams.Values && t.groupId == id
  {
    if id !in s.groups then Err(NotFound)
    else Ok(set t | t in s.teams.Values && t.groupId == id)
  }

  /** Every record is stored under its own key. */
  ghost predicate KeysMatch(s: Store) {
    && (forall id | id in s.users :: s.users[id].id == id)
    && (forall id | id in s.groups :: s.groups[id].id == id)
    && (forall k | k in s.teams :: s.teams[k].groupId == k.0 && s.teams[k].id == k.1)
  }

  /** A team written to the store is listed among its group's teams. */
  lemma WrittenTeamIsListed(s: Store, t: Team)
    requires t.groupId in s.groups
    ensures GetGroupTeams(AddOrUpdateTeam(s, t), t.groupId).Ok?
    ensures t in GetGroupTeams(AddOrUpdateTeam(s, t), t.groupId).value
  {
    var r := AddOrUpdateTeam(s, t);
    assert r.teams[(t.groupId, t.id)] == t;
  }

  /**
    Writing a team never changes the team list of another group, as long as
    every stored team sits under its own key.
   */
  lemma TeamWriteIsLocal(s: Store, t: Team, other: Id)
    requires KeysMatch(s)
    requires other != t.groupId && other in s.groups
    ensures GetGroupTeams(AddOrUpdateTeam(s, t), other) == GetGroupTeams(s, other)
  {
    var r := AddOrUpdateTeam(s, t);
    var before := set x | x in s.teams.Values && x.groupId == other;
    var after := set x | x in r.teams.Values && x.groupId == other;
    forall x | x in after
      ensures x in before
    {
      var k :| k in r.teams && r.teams[k] == x;
      assert k != (t.groupId, t.id);
    }
    forall x | x in before
      ensures x in after
    {
      var k :| k in s.teams && s.teams[k] == x;
      assert k != (t.groupId, t.id);
      assert r.teams[k] == x;
    }
    assert before == after;
  }

  /**
    Deleting a group keeps its teams stored, yet they can no longer be
    listed: the listing fails because the group is gone.
   */
  lemma DeletedGroupKeepsTeams(s: Store, id: Id, n: int)
    requires id in s.groups && (id, n) in s.teams
    ensures DeleteGroup(s, id).Ok?
    ensures GetTeam(DeleteGroup(s, id).value, id, n) == GetTeam(s, id, n)
    ensures GetGroupTeams(DeleteGroup(s, id).value, id).Err?
  {
  }
}
