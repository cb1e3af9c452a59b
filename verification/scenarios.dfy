/**
  Properties that relate several requests: what a later read returns after
  a write, which pairs of requests undo each other, and the behaviours of
  the team and group requests that a client might not expect (teams that
  outlive their group, team numbers that collide, the string "0").
 */
module Scenarios {
  import opened Wrappers
  import opened JsonValue
  import opened Entities
  import opened Protocol
  import opened Store
  import opened TeamAssignment
  import opened Handlers
  import opened Invariants

  /** A lookup payload naming one id by its textual form. */
  function Lookup(key: string, text: string): Json {
    JObject(map[key := JStr(text)])
  }

  // ---------------------------------------------------------------- users and groups

  /** After a successful `set_user_info`, `get_user_info` on the sender returns what was sent. */
  lemma SetThenGetUser(parse: UuidParser, s: Store, sender: Id, data: Json, text: string)
    requires HandleSetUserInfo(s, sender, data).outcome.Success?
    requires |text| > 0 && parse(text) == Some(sender)
    ensures HandleGetUserInfo(parse, HandleSetUserInfo(s, sender, data).store, Lookup(USER_ID, text)).outcome ==
      Success(UserRecord(User(sender, data.fields[USER_NAME], data.fields[USER_IMAGE],
                              if sender in s.users then s.users[sender].groupId else None)))
  {
    var t := HandleSetUserInfo(s, sender, data).store;
    assert Lookup(USER_ID, text).fields[USER_ID] == JStr(text);
    assert GetUser(t, sender).Some?;
  }

  /** After the admin renames their group, `get_group_info` shows the new name and the same members. */
  lemma RenameThenGetGroup(parse: UuidParser, s: Store, sender: Id, data: Json, text: string)
    requires KeysMatch(s)
    requires sender in s.users && s.users[sender].groupId.Some? && s.users[sender].groupId.value in s.groups
    requires HandleSetGroupInfo(parse, s, sender, data).outcome.Success?
    requires |text| > 0 && parse(text) == s.users[sender].groupId
    ensures var g := s.groups[s.users[sender].groupId.value];
      HandleGetGroupInfo(parse, HandleSetGroupInfo(parse, s, sender, data).store, Lookup(GROUP_ID, text)).outcome ==
        Success(GroupRecord(g.id, data.fields[GROUP_NAME], g.members))
  {
    var gid := s.users[sender].groupId.value;
    var t := HandleSetGroupInfo(parse, s, sender, data).store;
    assert Lookup(GROUP_ID, text).fields[GROUP_ID] == JStr(text);
    assert s.groups[gid].id == gid;
    assert GetGroup(t, gid).Some?;
  }

  /** After a sender in no group creates one, `get_group_info` on the chosen id shows it with the sender as its only member. */
  lemma CreateThenGetGroup(parse: UuidParser, s: Store, sender: Id, data: Json, text: string)
    requires KeysMatch(s)
    requires sender in s.users && s.users[sender].groupId.None?
    requires HandleSetGroupInfo(parse, s, sender, data).outcome.Success?
    requires |text| > 0 && parse(text) == Some(ToId(parse, data.fields[GROUP_ID]).value)
    ensures HandleGetGroupInfo(parse, HandleSetGroupInfo(parse, s, sender, data).store, Lookup(GROUP_ID, text)).outcome ==
      Success(GroupRecord(ToId(parse, data.fields[GROUP_ID]).value, data.fields[GROUP_NAME], {sender}))
  {
    var gid := ToId(parse, data.fields[GROUP_ID]).value;
    var t := HandleSetGroupInfo(parse, s, sender, data).store;
    assert Lookup(GROUP_ID, text).fields[GROUP_ID] == JStr(text);
    assert GetGroup(t, gid).Some?;
  }

  /** Joining a group and then leaving it gives back the store exactly as it was. */
  lemma JoinThenLeaveRestores(parse: UuidParser, s: Store, sender: Id, data: Json)
    requires Consistent(s)
    requires HandleJoinGroup(parse, s, sender, data).outcome.Success?
    ensures HandleLeaveGroup(HandleJoinGroup(parse, s, sender, data).store, sender).outcome.Success?
    ensures HandleLeaveGroup(HandleJoinGroup(parse, s, sender, data).store, sender).store == s
  {
    var gid := RequestedId(parse, data, GROUP_ID).value;
    var g := s.groups[gid];
    var u := s.users[sender];
    var j := HandleJoinGroup(parse, s, sender, data).store;
    JoinPreserves(parse, s, sender, data);
    assert sender !in g.members;
    assert g.adminId != sender;
    assert GetUser(j, sender).Some? && GetGroup(j, gid).Some?;
    var l := HandleLeaveGroup(j, sender).store;
    assert l.users == s.users by {
      assert GetUser(l, sender) == Some(u);
      forall id ensures GetUser(l, id) == GetUser(s, id) {
        if id != sender {
          assert GetUser(l, id) == GetUser(j, id);
        }
      }
    }
    assert l.groups == s.groups by {
      assert g.(members := g.members + {sender} - {sender}) == g;
      forall id ensures GetGroup(l, id) == GetGroup(s, id) {
        if id != gid {
          assert GetGroup(l, id) == GetGroup(j, id);
        }
      }
    }
  }

  /** The admin can never leave their own group; the request is refused and nothing changes. */
  lemma AdminNeverLeaves(s: Store, sender: Id)
    requires Consistent(s)
    requires exists gid | gid in s.groups :: s.groups[gid].adminId == sender
    ensures HandleLeaveGroup(s, sender).outcome == Failure(AdminCannotLeave)
    ensures HandleLeaveGroup(s, sender).store == s
  {
    var gid :| gid in s.groups && s.groups[gid].adminId == sender;
    assert sender in s.groups[gid].members;
  }

  // ---------------------------------------------------------------- teams

  /** The member lists of the accepted request, read from the payload. */
  function SubmittedTeams(parse: UuidParser, data: Json): seq<Submitted>
    requires Elements(data).Ok? && AllDecode(parse, Elements(data).value)
  {
    Decoded(parse, Elements(data).value)
  }

  /**
    The admin's `set_teams` is accepted exactly when the payload is a list of
    well-formed teams whose member lists partition the group. It then writes
    one team per entry, in order, and tells every other member the new teams.
   */
  lemma SetTeamsAccepts(parse: UuidParser, s: Store, sender: Id, data: Json)
    requires sender in s.users && s.users[sender].groupId.Some?
    requires s.users[sender].groupId.value in s.groups && s.groups[s.users[sender].groupId.value].adminId == sender
    ensures var g := s.groups[s.users[sender].groupId.value];
      HandleSetTeams(parse, s, sender, data).outcome.Success? <==>
        Elements(data).Ok? && AllDecode(parse, Elements(data).value) && PartitionOf(SubmittedTeams(parse, data), g.members)
    ensures HandleSetTeams(parse, s, sender, data).outcome.Success? ==>
      var gid := s.users[sender].groupId.value;
      var teams := TeamsOf(gid, SubmittedTeams(parse, data));
      && HandleSetTeams(parse, s, sender, data).store == WriteTeams(s, teams)
      && HandleSetTeams(parse, s, sender, data).outbox ==
           [Notification(s.groups[gid].members - {sender}, SetTeamsType, TeamList(teams))]
    ensures (Elements(data).Ok? && AllDecode(parse, Elements(data).value) &&
      !Admissible(parse, Elements(data).value, s.groups[s.users[sender].groupId.value].members)) ==>
        HandleSetTeams(parse, s, sender, data).outcome.Failure? &&
        HandleSetTeams(parse, s, sender, data).outcome.error.AlreadyInAnotherTeam?
    ensures (Elements(data).Ok? && Admissible(parse, Elements(data).value, s.groups[s.users[sender].groupId.value].members) &&
      !(s.groups[s.users[sender].groupId.value].members <= Named(parse, Elements(data).value))) ==>
        HandleSetTeams(parse, s, sender, data).outcome == Failure(MembersWithoutTeam)
  {
    var gid := s.users[sender].groupId.value;
    if Elements(data).Ok? {
      var members := s.groups[gid].members;
      CollectPartitions(parse, gid, Elements(data).value, members);
      CollectSpec(parse, gid, Elements(data).value, Pool(members, {}));
      if AllDecode(parse, Elements(data).value) {
        CollectFailsOnlyOnConflict(parse, gid, Elements(data).value, Pool(members, {}));
      }
    }
  }

  /**
    An admin's `set_teams` whose entries before position `i` are admissible
    and whose entry `i` does not read is refused with that entry's error,
    and nothing changes.
   */
  lemma SetTeamsFirstBadEntry(parse: UuidParser, s: Store, sender: Id, data: Json, i: nat)
    requires sender in s.users && s.users[sender].groupId.Some?
    requires s.users[sender].groupId.value in s.groups && s.groups[s.users[sender].groupId.value].adminId == sender
    requires Elements(data).Ok? && i < |Elements(data).value|
    requires Admissible(parse, Elements(data).value[..i], s.groups[s.users[sender].groupId.value].members)
    requires DecodeTeam(parse, Elements(data).value[i]).Err?
    ensures HandleSetTeams(parse, s, sender, data).outcome == Failure(DecodeTeam(parse, Elements(data).value[i]).error)
    ensures HandleSetTeams(parse, s, sender, data).store == s
  {
    var gid := s.users[sender].groupId.value;
    CollectFirstBadEntry(parse, gid, Elements(data).value, Pool(s.groups[gid].members, {}), i);
  }

  /**
    An admin's `set_teams` whose entries before position `i` are admissible
    and whose entry `i` reads but names a member the earlier entries already
    took, or one outside the group, is refused as "already in another team"
    for the member at which claiming entry `i` stops, and nothing changes.
   */
  lemma SetTeamsFirstConflict(parse: UuidParser, s: Store, sender: Id, data: Json, i: nat)
    requires sender in s.users && s.users[sender].groupId.Some?
    requires s.users[sender].groupId.value in s.groups && s.groups[s.users[sender].groupId.value].adminId == sender
    requires Elements(data).Ok? && i < |Elements(data).value|
    requires Admissible(parse, Elements(data).value[..i], s.groups[s.users[sender].groupId.value].members)
    requires DecodeTeam(parse, Elements(data).value[i]).Ok?
    requires var named := Named(parse, Elements(data).value[..i]);
      Claim(DecodeTeam(parse, Elements(data).value[i]).value.members,
            Pool(s.groups[s.users[sender].groupId.value].members - named, named)).Err?
    ensures var named := Named(parse, Elements(data).value[..i]);
      var blocked := Claim(DecodeTeam(parse, Elements(data).value[i]).value.members,
                           Pool(s.groups[s.users[sender].groupId.value].members - named, named)).error;
      HandleSetTeams(parse, s, sender, data).outcome == Failure(AlreadyInAnotherTeam(blocked))
    ensures HandleSetTeams(parse, s, sender, data).store == s
  {
    var gid := s.users[sender].groupId.value;
    var named := Named(parse, Elements(data).value[..i]);
    assert {} + named == named;
    CollectFirstConflict(parse, gid, Elements(data).value, Pool(s.groups[gid].members, {}), i);
  }

  /** An admin's `set_teams` whose first entry has team number 0 is refused as missing a team number. */
  lemma SetTeamsRefusesZeroNumber(parse: UuidParser, s: Store, sender: Id, entry: map<string, Json>, rest: seq<Json>)
    requires sender in s.users && s.users[sender].groupId.Some?
    requires s.users[sender].groupId.value in s.groups && s.groups[s.users[sender].groupId.value].adminId == sender
    requires TEAM_ID in entry && entry[TEAM_ID] == JInt(0)
    ensures HandleSetTeams(parse, s, sender, JList([JObject(entry)] + rest)).outcome == Failure(MissingField)
  {
    var data := JList([JObject(entry)] + rest);
    var raws := Elements(data).value;
    assert raws[0] == JObject(entry);
    assert raws[..0] == [];
    SetTeamsFirstBadEntry(parse, s, sender, data, 0);
  }

  /** Every stored team is either one of the written teams or the team that was stored under that key before. */
  lemma {:induction false} WriteTeamsValues(s: Store, teams: seq<Team>, k: (Id, int))
    requires k in WriteTeams(s, teams).teams
    ensures WriteTeams(s, teams).teams[k] in teams || (k in s.teams && WriteTeams(s, teams).teams[k] == s.teams[k])
    decreases |teams|
  {
    if |teams| > 0 {
      var n := |teams| - 1;
      if k != TeamKey(teams[n]) {
        WriteTeamsValues(s, teams[..n], k);
      }
    }
  }

  /**
    After an accepted `set_teams`, `get_teams` lists every submitted team
    that no later entry overwrote, and lists nothing but submitted teams and
    teams the group already had: earlier teams are never removed.
   */
  lemma SetThenGetTeams(parse: UuidParser, s: Store, sender: Id, data: Json)
    requires KeysMatch(s)
    requires sender in s.users && s.users[sender].groupId.Some?
    requires s.users[sender].groupId.value in s.groups && s.groups[s.users[sender].groupId.value].adminId == sender
    requires HandleSetTeams(parse, s, sender, data).outcome.Success?
    requires Elements(data).Ok? && AllDecode(parse, Elements(data).value)
    ensures var gid := s.users[sender].groupId.value;
      var teams := TeamsOf(gid, SubmittedTeams(parse, data));
      var listed := HandleGetTeams(HandleSetTeams(parse, s, sender, data).store, sender);
      && listed.outcome.Success?
      && (forall i | 0 <= i < |teams| && LastWithKey(teams, i) :: teams[i] in listed.outcome.data.teams)
      && (forall t | t in listed.outcome.data.teams :: t in teams || t in s.teams.Values)
      && (forall k | k in s.teams && k !in KeysOf(teams) && s.teams[k].groupId == gid :: s.teams[k] in listed.outcome.data.teams)
  {
    SetTeamsAccepts(parse, s, sender, data);
    var gid := s.users[sender].groupId.value;
    var teams := TeamsOf(gid, SubmittedTeams(parse, data));
    var t := WriteTeams(s, teams);
    var listed := HandleGetTeams(t, sender);
    forall i | 0 <= i < |teams| && LastWithKey(teams, i)
      ensures teams[i] in listed.outcome.data.teams
    {
      WriteTeamsLastWins(s, teams, i);
    }
    forall x | x in listed.outcome.data.teams
      ensures x in teams || x in s.teams.Values
    {
      var k :| k in t.teams && t.teams[k] == x;
      WriteTeamsValues(s, teams, k);
    }
    forall k | k in s.teams && k !in KeysOf(teams) && s.teams[k].groupId == gid
      ensures s.teams[k] in listed.outcome.data.teams
    {
      WriteTeamsKeepsOthers(s, teams, k);
    }
  }

  /** When the submitted team numbers are pairwise distinct, no entry overwrites another, so every submitted team is listed. */
  lemma DistinctNumbersAllListed(parse: UuidParser, s: Store, sender: Id, data: Json)
    requires KeysMatch(s)
    requires sender in s.users && s.users[sender].groupId.Some?
    requires s.users[sender].groupId.value in s.groups && s.groups[s.users[sender].groupId.value].adminId == sender
    requires HandleSetTeams(parse, s, sender, data).outcome.Success?
    requires Elements(data).Ok? && AllDecode(parse, Elements(data).value)
    requires var subs := SubmittedTeams(parse, data); forall i, j | 0 <= i < j < |subs| :: subs[i].id != subs[j].id
    ensures var teams := TeamsOf(s.users[sender].groupId.value, SubmittedTeams(parse, data));
      forall t | t in teams :: t in HandleGetTeams(HandleSetTeams(parse, s, sender, data).store, sender).outcome.data.teams
  {
    SetThenGetTeams(parse, s, sender, data);
    var teams := TeamsOf(s.users[sender].groupId.value, SubmittedTeams(parse, data));
    forall i | 0 <= i < |teams| ensures LastWithKey(teams, i) {
    }
  }

  /** A group with admin 1 and member 2, both stored users. */
  const TwoMemberStore: Store :=
    Store(map[Id(1) := User(Id(1), JNull, JNull, Some(Id(0))), Id(2) := User(Id(2), JNull, JNull, Some(Id(0)))],
          map[Id(0) := Group(Id(0), Id(1), JStr("g"), {Id(1), Id(2)})],
          map[])

  function TeamEntry(n: int, member: string): Json {
    JObject(map[TEAM_ID := JInt(n), TEAM_MEMBERS := JList([JStr(member)])])
  }

  lemma TwoMemberStoreConsistent()
    ensures Consistent(TwoMemberStore)
  {
  }

  lemma DecodeEntry(parse: UuidParser, n: int, member: string, id: Id)
    requires n != 0 && parse(member) == Some(id)
    ensures DecodeTeam(parse, TeamEntry(n, member)) == Ok(Submitted(n, [id]))
  {
    var raw := TeamEntry(n, member);
    assert raw.fields[TEAM_ID] == JInt(n) && raw.fields[TEAM_MEMBERS] == JList([JStr(member)]);
    SingleMember(parse, member, id);
  }

  /** Both entries numbered 7 pass the fold, one after the other. */
  lemma DuplicateNumberCollects(parse: UuidParser)
    requires parse("a") == Some(Id(1)) && parse("b") == Some(Id(2))
    ensures Collect(parse, Id(0), [TeamEntry(7, "a"), TeamEntry(7, "b")], Pool({Id(1), Id(2)}, {})) ==
      Ok(Collected([Team(7, Id(0), {Id(1)}), Team(7, Id(0), {Id(2)})], Pool({}, {Id(1), Id(2)})))
  {
    var second := TeamEntry(7, "b");
    var raws := [TeamEntry(7, "a"), second];
    DecodeEntry(parse, 7, "a", Id(1));
    DecodeEntry(parse, 7, "b", Id(2));
    assert raws[1..] == [second] && [second][1..] == [];
    ClaimOne(Id(1), Pool({Id(1), Id(2)}, {}));
    ClaimOne(Id(2), Pool({Id(2)}, {Id(1)}));
    assert {Id(1), Id(2)} - {Id(1)} == {Id(2)} && {} + {Id(1)} == {Id(1)};
    assert {Id(2)} - {Id(2)} == {} && {Id(1)} + {Id(2)} == {Id(1), Id(2)};
    var done := Collected([], Pool({}, {Id(1), Id(2)}));
    CollectStep(parse, Id(0), [second], Pool({Id(2)}, {Id(1)}), Submitted(7, [Id(2)]), Pool({}, {Id(1), Id(2)}), done);
    var half := Collected([Team(7, Id(0), Elems([Id(2)]))], done.pool);
    assert [Team(7, Id(0), Elems([Id(2)]))] + done.teams == half.teams;
    CollectStep(parse, Id(0), raws, Pool({Id(1), Id(2)}, {}), Submitted(7, [Id(1)]), Pool({Id(2)}, {Id(1)}), half);
    assert Elems([Id(1)]) == {Id(1)} && Elems([Id(2)]) == {Id(2)};
    assert [Team(7, Id(0), Elems([Id(1)]))] + half.teams == [Team(7, Id(0), {Id(1)}), Team(7, Id(0), {Id(2)})];
  }

  /**
    Two entries with the same team number both pass validation, and the
    later one replaces the earlier: the members of the first team end up in
    no stored team, although the request succeeded.
   */
  lemma DuplicateNumberDropsTeam(parse: UuidParser)
    requires parse("a") == Some(Id(1)) && parse("b") == Some(Id(2))
    ensures Consistent(TwoMemberStore)
    ensures var r := HandleSetTeams(parse, TwoMemberStore, Id(1), JList([TeamEntry(7, "a"), TeamEntry(7, "b")]));
      && r.outcome.Success?
      && r.store.teams == map[(Id(0), 7) := Team(7, Id(0), {Id(2)})]
      && forall t | t in r.store.teams.Values :: Id(1) !in t.members
  {
    TwoMemberStoreConsistent();
    DuplicateNumberCollects(parse);
    var s := TwoMemberStore;
    var teams := [Team(7, Id(0), {Id(1)}), Team(7, Id(0), {Id(2)})];
    assert teams[..1] == [Team(7, Id(0), {Id(1)})];
    assert teams[..1][..0] == [];
    assert WriteTeams(s, teams[..1]).teams == map[(Id(0), 7) := teams[0]];
    assert WriteTeams(s, teams).teams == map[(Id(0), 7) := teams[1]];
  }

  /** One step of the fold: the first entry is read and claimed, and the rest is folded from the pools that leaves. */
  lemma CollectStep(parse: UuidParser, groupId: Id, raws: seq<Json>, pool: Pool, d: Submitted, next: Pool, c: Collected)
    requires |raws| > 0 && DecodeTeam(parse, raws[0]) == Ok(d) && Claim(d.members, pool) == Ok(next)
    requires Collect(parse, groupId, raws[1..], next) == Ok(c)
    ensures Collect(parse, groupId, raws, pool) == Ok(Collected([Team(d.id, groupId, Elems(d.members))] + c.teams, c.pool))
  {
  }

  /** A one-item member list reads as the one parsed id. */
  lemma SingleMember(parse: UuidParser, text: string, id: Id)
    requires parse(text) == Some(id)
    ensures ToIds(parse, [JStr(text)]) == Ok([id])
  {
    var items := [JStr(text)];
    assert ToId(parse, items[0]) == Ok(id);
    assert items[1..] == [];
    var r := ToIds(parse, items);
    assert |r.value| == 1 && r.value[0] == id;
    assert r.value == [id];
  }

  lemma ClaimOne(m: Id, pool: Pool)
    requires m in pool.unassignedMembers
    ensures Claim([m], pool) == Ok(Pool(pool.unassignedMembers - {m}, pool.assignedMembers + {m}))
  {
    assert Elems([m]) == {m};
  }

  lemma ParseZero()
    ensures ParseDecimal("0") == Some(0)
  {
    assert IsDigits("0");
    assert "0"[..0] == [];
  }

  /**
    A team number is taken as missing when it is falsy, so the number 0 is
    refused; the string "0" is truthy and `int()` reads it as 0, so the same
    team is accepted with number 0.
   */
  lemma ZeroTeamNumber(parse: UuidParser)
    requires parse("a") == Some(Id(1))
    ensures DecodeTeam(parse, JObject(map[TEAM_ID := JInt(0), TEAM_MEMBERS := JList([JStr("a")])])) == Err(MissingField)
    ensures DecodeTeam(parse, JObject(map[TEAM_ID := JStr("0"), TEAM_MEMBERS := JList([JStr("a")])])) == Ok(Submitted(0, [Id(1)]))
  {
    var raw := JObject(map[TEAM_ID := JStr("0"), TEAM_MEMBERS := JList([JStr("a")])]);
    assert raw.fields[TEAM_ID] == JStr("0") && raw.fields[TEAM_MEMBERS] == JList([JStr("a")]);
    ParseZero();
    SingleMember(parse, "a", Id(1));
  }

  /**
    Deleting a group leaves its teams in the store. If the former admin
    then creates a group under the same id, `get_teams` lists the old teams
    again.
   */
  lemma DeletedTeamsResurface(parse: UuidParser, s: Store, sender: Id, data: Json, n: int)
    requires Consistent(s)
    requires sender in s.users && s.users[sender].groupId.Some?
    requires s.users[sender].groupId.value in s.groups && s.groups[s.users[sender].groupId.value].adminId == sender
    requires (s.users[sender].groupId.value, n) in s.teams
    requires data.JObject? && GROUP_ID in data.fields && GROUP_NAME in data.fields
    requires ToId(parse, data.fields[GROUP_ID]) == Ok(s.users[sender].groupId.value)
    ensures var s1 := HandleDeleteGroup(s, sender).store;
      var s2 := HandleSetGroupInfo(parse, s1, sender, data).store;
      && HandleDeleteGroup(s, sender).outcome.Success?
      && HandleSetGroupInfo(parse, s1, sender, data).outcome.Success?
      && HandleGetTeams(s2, sender).outcome.Success?
      && s.teams[(s.users[sender].groupId.value, n)] in HandleGetTeams(s2, sender).outcome.data.teams
  {
    var gid := s.users[sender].groupId.value;
    var s1 := HandleDeleteGroup(s, sender).store;
    DeletePreserves(s, sender);
    assert s.groups[gid].id == gid;
    assert s1.users[sender].groupId.None?;
    var s2 := HandleSetGroupInfo(parse, s1, sender, data).store;
    assert GetUser(s2, sender).Some?;
    assert s.teams[(gid, n)] in s2.teams.Values;
  }
}
