/**
  The validation at the heart of `set_teams`: the submitted teams are read
  one by one, each member is moved from the pool of unassigned group members
  to the assigned pool, and a member that is not in the unassigned pool
  (claimed twice, or not a group member) stops the whole request. The fold
  here follows the `for raw_team in message.data` loop of
  `handle_set_teams`; the lemmas relate it to a plain statement of "the
  submitted member lists partition the group".
 */
module TeamAssignment {
  import opened Wrappers
  import opened JsonValue
  import opened Entities
  import opened Protocol
  import opened Store

  predicate NoDup<T(==)>(xs: seq<T>) {
    forall i, j | 0 <= i < j < |xs| :: xs[i] != xs[j]
  }

  function Elems<T>(xs: seq<T>): set<T> {
    set x | x in xs
  }

  /** One submitted team as read from the request: its number and its member ids in order. */
  datatype Submitted = Submitted(id: int, members: seq<Id>)

  /** The two working sets of the validation loop. */
  datatype Pool = Pool(unassignedMembers: set<Id>, assignedMembers: set<Id>)

  /** The teams read so far and the pools after claiming their members. */
  datatype Collected = Collected(teams: seq<Team>, pool: Pool)

  /**
    How a handler that catches only ValueError reports an exception: as an
    invalid value, while anything else ends as an internal error.
   */
  function ValueErrorKind(e: Exc): ErrorKind {
    if e == ValueErr then InvalidValue else Internal
  }

  /** `list(map(UUID, items))`: every item read as an id, stopping at the first that fails. */
  function ToIds(parse: UuidParser, items: seq<Json>): (r: Result<seq<Id>, Exc>)
    ensures r.Ok? <==> forall i | 0 <= i < |items| :: ToId(parse, items[i]).Ok?
    ensures r.Ok? ==> |r.value| == |items|
    ensures r.Ok? ==> forall i | 0 <= i < |items| :: ToId(parse, items[i]) == Ok(r.value[i])
    ensures r.Err? ==> exists i | 0 <= i < |items| ::
      (forall k | 0 <= k < i :: ToId(parse, items[k]).Ok?) && ToId(parse, items[i]) == Err(r.error)
    decreases |items|
  {
    if |items| == 0 then Ok([])
    else
      match ToId(parse, items[0])
      case Err(e) => Err(e)
      case Ok(id) =>
        assert forall i | 1 <= i < |items| :: items[i] == items[1..][i - 1];
        match ToIds(parse, items[1..])
        case Err(e) =>
          var j :| 0 <= j < |items| - 1 && (forall k | 0 <= k < j :: ToId(parse, items[1..][k]).Ok?)
            && ToId(parse, items[1..][j]) == Err(e);
          assert forall k | 0 <= k < j + 1 :: ToId(parse, items[k]).Ok?;
          assert ToId(parse, items[j + 1]) == Err(e);
          Err(e)
        case Ok(rest) =>
          Ok([id] + rest)
  }

  /** `raw_team.get(TEAM_ID)` on a dict entry. */
  function RawTeamId(raw: Json): Json
    requires raw.JObject?
  {
    Get(raw, TEAM_ID).value
  }

  /** `raw_team.get(TEAM_MEMBERS)` on a dict entry. */
  function RawMembers(raw: Json): Json
    requires raw.JObject?
  {
    Get(raw, TEAM_MEMBERS).value
  }

  /** The entry's team number is present and `int()` reads it. */
  predicate IdReadable(raw: Json)
    requires raw.JObject?
  {
    Truthy(RawTeamId(raw)) && ToInt(RawTeamId(raw)).Ok?
  }

  /** The entry's member list is present and can be iterated. */
  predicate MembersIterable(raw: Json)
    requires raw.JObject?
  {
    Truthy(RawMembers(raw)) && Elements(RawMembers(raw)).Ok?
  }

  /**
    Reads one entry of the submitted list: it must be a dict with a truthy
    `teamId` that `int()` accepts and a truthy `teamMembers` whose items are
    all UUID strings. A falsy field is missing; a ValueError from `int()` or
    `UUID()` is an invalid value; any other exception escapes the handler and
    ends as an internal error.
   */
  function DecodeTeam(parse: UuidParser, raw: Json): (r: Result<Submitted, ErrorKind>)
    ensures !raw.JObject? ==> r == Err(Internal)
    ensures r.Ok? <==>
      && raw.JObject? && IdReadable(raw) && MembersIterable(raw)
      && var items := Elements(RawMembers(raw)).value;
         forall i | 0 <= i < |items| :: items[i].JStr? && parse(items[i].s).Some?
    ensures r.Ok? ==> r.value.id == ToInt(RawTeamId(raw)).value
    ensures r.Ok? ==>
      var items := Elements(RawMembers(raw)).value;
      && |r.value.members| == |items|
      && forall i | 0 <= i < |items| :: items[i].JStr? && parse(items[i].s) == Some(r.value.members[i])
    ensures r.Ok? ==> |r.value.members| > 0
    ensures raw.JObject? && !Truthy(RawTeamId(raw)) ==> r == Err(MissingField)
    ensures raw.JObject? && (TEAM_ID !in raw.fields || raw.fields[TEAM_ID] == JInt(0)) ==> r == Err(MissingField)
    ensures raw.JObject? && Truthy(RawTeamId(raw)) && ToInt(RawTeamId(raw)).Err? ==>
      r == Err(ValueErrorKind(ToInt(RawTeamId(raw)).error))
    ensures raw.JObject? && IdReadable(raw) && !Truthy(RawMembers(raw)) ==> r == Err(MissingField)
    ensures raw.JObject? && IdReadable(raw) && Truthy(RawMembers(raw)) && Elements(RawMembers(raw)).Err? ==>
      r == Err(Internal)
    ensures raw.JObject? && IdReadable(raw) && MembersIterable(raw) ==>
      var ids := ToIds(parse, Elements(RawMembers(raw)).value);
      ids.Err? ==> r == Err(ValueErrorKind(ids.error))
  {
    if !raw.JObject? then Err(Internal)
    else
      var rawId := RawTeamId(raw);
      if !Truthy(rawId) then Err(MissingField)
      else
        match ToInt(rawId)
        case Err(e) => Err(ValueErrorKind(e))
        case Ok(n) =>
          var rawMembers := RawMembers(raw);
          if !Truthy(rawMembers) then Err(MissingField)
          else
            match Elements(rawMembers)
            case Err(_) => Err(Internal)
            case Ok(items) =>
              match ToIds(parse, items)
              case Err(e) => Err(ValueErrorKind(e))
              case Ok(ids) => Ok(Submitted(n, ids))
  }

  /**
    Position `i` is where claiming `ms` from `unassigned` stops: every
    earlier member was distinct and unassigned, and `ms[i]` is either not
    unassigned at all or was already claimed earlier in the list.
   */
  ghost predicate BlockedAt(ms: seq<Id>, unassigned: set<Id>, i: int)
    requires 0 <= i < |ms|
  {
    && NoDup(ms[..i])
    && Elems(ms[..i]) <= unassigned
    && (ms[i] !in unassigned || ms[i] in ms[..i])
  }

  /** Stopping at `j` in the tail after claiming the head is stopping at `j + 1` in the whole list. */
  lemma BlockedShift(ms: seq<Id>, unassigned: set<Id>)
    requires |ms| > 0 && ms[0] in unassigned
    ensures forall j | 0 <= j < |ms| - 1 && BlockedAt(ms[1..], unassigned - {ms[0]}, j) ::
      ms[j + 1] == ms[1..][j] && BlockedAt(ms, unassigned, j + 1)
  {
    var rest := ms[1..];
    forall j | 0 <= j < |ms| - 1 && BlockedAt(rest, unassigned - {ms[0]}, j)
      ensures BlockedAt(ms, unassigned, j + 1)
    {
      assert ms[..j + 1] == [ms[0]] + rest[..j];
      assert Elems(ms[..j + 1]) == {ms[0]} + Elems(rest[..j]);
      assert ms[0] !in rest[..j];
      NoDupAppend([ms[0]], rest[..j]);
      assert ms[j + 1] == rest[j];
    }
  }

  /**
    Moves each member in turn from the unassigned to the assigned pool; the
    first member not found among the unassigned is reported. It succeeds
    exactly when the list repeats no one and names only unassigned members.
   */
  function Claim(ms: seq<Id>, pool: Pool): (r: Result<Pool, Id>)
    ensures r.Ok? <==> NoDup(ms) && Elems(ms) <= pool.unassignedMembers
    ensures r.Ok? ==> r.value == Pool(pool.unassignedMembers - Elems(ms), pool.assignedMembers + Elems(ms))
    ensures r.Err? ==> r.error in ms
    ensures r.Err? ==> exists i | 0 <= i < |ms| :: ms[i] == r.error && BlockedAt(ms, pool.unassignedMembers, i)
    decreases |ms|
  {
    if |ms| == 0 then Ok(pool)
    else if ms[0] !in pool.unassignedMembers then Err(ms[0])
    else
      var rest := ms[1..];
      assert ms == [ms[0]] + rest;
      assert Elems(ms) == {ms[0]} + Elems(rest);
      assert NoDup(ms) <==> ms[0] !in rest && NoDup(rest) by {
        if ms[0] !in rest && NoDup(rest) {
          forall i, j | 0 <= i < j < |ms| ensures ms[i] != ms[j] {
            if i > 0 { assert ms[i] == rest[i - 1] && ms[j] == rest[j - 1]; }
            else { assert ms[j] == rest[j - 1]; }
          }
        }
        if NoDup(ms) {
          forall i, j | 0 <= i < j < |rest| ensures rest[i] != rest[j] {
            assert rest[i] == ms[i + 1] && rest[j] == ms[j + 1];
          }
        }
      }
      BlockedShift(ms, pool.unassignedMembers);
      Claim(rest, Pool(pool.unassignedMembers - {ms[0]}, pool.assignedMembers + {ms[0]}))
  }

  /**
    The `for raw_team in message.data` loop: entries are read in order and
    the first failure, whether in reading an entry or in claiming one of its
    members, ends the request.
   */
  function Collect(parse: UuidParser, groupId: Id, raws: seq<Json>, pool: Pool): (r: Result<Collected, ErrorKind>)
    ensures r.Ok? ==> |r.value.teams| == |raws|
    ensures r.Ok? ==> forall i | 0 <= i < |raws| :: r.value.teams[i].groupId == groupId
    ensures r.Ok? ==> r.value.pool.unassignedMembers <= pool.unassignedMembers
    ensures r.Ok? ==> r.value.pool.unassignedMembers + r.value.pool.assignedMembers == pool.unassignedMembers + pool.assignedMembers
    decreases |raws|
  {
    if |raws| == 0 then Ok(Collected([], pool))
    else
      match DecodeTeam(parse, raws[0])
      case Err(e) => Err(e)
      case Ok(d) =>
        match Claim(d.members, pool)
        case Err(m) => Err(AlreadyInAnotherTeam(m))
        case Ok(next) =>
          match Collect(parse, groupId, raws[1..], next)
          case Err(e) => Err(e)
          case Ok(c) => Ok(Collected([Team(d.id, groupId, Elems(d.members))] + c.teams, c.pool))
  }

  predicate AllDecode(parse: UuidParser, raws: seq<Json>) {
    forall i | 0 <= i < |raws| :: DecodeTeam(parse, raws[i]).Ok?
  }

  function Decoded(parse: UuidParser, raws: seq<Json>): (r: seq<Submitted>)
    requires AllDecode(parse, raws)
    ensures |r| == |raws|
    ensures forall i | 0 <= i < |raws| :: DecodeTeam(parse, raws[i]) == Ok(r[i])
    decreases |raws|
  {
    if |raws| == 0 then []
    else
      assert forall i | 0 <= i < |raws| - 1 :: raws[1..][i] == raws[i + 1];
      [DecodeTeam(parse, raws[0]).value] + Decoded(parse, raws[1..])
  }

  /** Every submitted member id, team after team, in submission order. */
  function AllMembers(subs: seq<Submitted>): seq<Id>
    decreases |subs|
  {
    if |subs| == 0 then [] else subs[0].members + AllMembers(subs[1..])
  }

  /** The teams a request writes, all under the sender's group. */
  function TeamsOf(groupId: Id, subs: seq<Submitted>): (r: seq<Team>)
    ensures |r| == |subs|
    ensures forall i | 0 <= i < |subs| :: r[i] == Team(subs[i].id, groupId, Elems(subs[i].members))
  {
    seq(|subs|, i requires 0 <= i < |subs| => Team(subs[i].id, groupId, Elems(subs[i].members)))
  }

  /**
    The submitted member lists partition `members`: no list repeats an id,
    no two lists share one, and together they name exactly the members.
   */
  ghost predicate PartitionOf(subs: seq<Submitted>, members: set<Id>) {
    && (forall i | 0 <= i < |subs| :: NoDup(subs[i].members))
    && (forall i, j | 0 <= i < j < |subs| :: Elems(subs[i].members) !! Elems(subs[j].members))
    && (forall i, x | 0 <= i < |subs| && x in subs[i].members :: x in members)
    && (forall x | x in members :: exists i | 0 <= i < |subs| :: x in subs[i].members)
  }

  lemma {:induction false} NoDupAppend<T>(a: seq<T>, b: seq<T>)
    ensures NoDup(a + b) <==> NoDup(a) && NoDup(b) && Elems(a) !! Elems(b)
  {
    var ab := a + b;
    if NoDup(a) && NoDup(b) && Elems(a) !! Elems(b) {
      forall i, j | 0 <= i < j < |ab| ensures ab[i] != ab[j] {
        if j < |a| {
          assert ab[i] == a[i] && ab[j] == a[j];
        } else if i >= |a| {
          assert ab[i] == b[i - |a|] && ab[j] == b[j - |a|];
        } else {
          assert ab[i] == a[i] && ab[j] == b[j - |a|];
          assert ab[i] in Elems(a) && ab[j] in Elems(b);
        }
      }
    }
    if NoDup(ab) {
      forall i, j | 0 <= i < j < |a| ensures a[i] != a[j] {
        assert a[i] == ab[i] && a[j] == ab[j];
      }
      forall i, j | 0 <= i < j < |b| ensures b[i] != b[j] {
        assert b[i] == ab[i + |a|] && b[j] == ab[j + |a|];
      }
      forall i, j | 0 <= i < |a| && 0 <= j < |b| ensures a[i] != b[j] {
        assert a[i] == ab[i] && b[j] == ab[j + |a|];
      }
    }
  }

  lemma ElemsAppend<T>(a: seq<T>, b: seq<T>)
    ensures Elems(a + b) == Elems(a) + Elems(b)
  {
  }

  lemma AllMembersCons(d: Submitted, subs: seq<Submitted>)
    ensures AllMembers([d] + subs) == d.members + AllMembers(subs)
  {
    assert ([d] + subs)[1..] == subs;
  }

  lemma DecodedCons(parse: UuidParser, raws: seq<Json>)
    requires |raws| > 0
    ensures AllDecode(parse, raws) <==> DecodeTeam(parse, raws[0]).Ok? && AllDecode(parse, raws[1..])
    ensures AllDecode(parse, raws) ==> Decoded(parse, raws) == [DecodeTeam(parse, raws[0]).value] + Decoded(parse, raws[1..])
  {
    var rest := raws[1..];
    assert forall i | 0 <= i < |rest| :: rest[i] == raws[i + 1];
    if DecodeTeam(parse, raws[0]).Ok? && AllDecode(parse, rest) {
      forall i | 0 <= i < |raws| ensures DecodeTeam(parse, raws[i]).Ok? {
        if i > 0 { assert raws[i] == rest[i - 1]; }
      }
    }
  }

  /** The flattened member list names exactly the ids some team names. */
  lemma {:induction false} AllMembersElems(subs: seq<Submitted>)
    ensures forall x :: x in AllMembers(subs) <==> exists i | 0 <= i < |subs| :: x in subs[i].members
    decreases |subs|
  {
    if |subs| > 0 {
      var rest := subs[1..];
      AllMembersElems(rest);
      assert subs == [subs[0]] + rest;
      AllMembersCons(subs[0], rest);
      forall x | x in AllMembers(subs)
        ensures exists i | 0 <= i < |subs| :: x in subs[i].members
      {
        if x !in subs[0].members {
          assert x in AllMembers(rest);
          var i :| 0 <= i < |rest| && x in rest[i].members;
          assert x in subs[i + 1].members;
        }
      }
      forall x, i | 0 <= i < |subs| && x in subs[i].members
        ensures x in AllMembers(subs)
      {
        if i > 0 {
          assert x in rest[i - 1].members;
        }
      }
    }
  }

  /** The flattened list repeats no id exactly when every list is duplicate-free and the lists are pairwise disjoint. */
  lemma {:induction false} AllMembersNoDup(subs: seq<Submitted>)
    ensures NoDup(AllMembers(subs)) <==>
      && (forall i | 0 <= i < |subs| :: NoDup(subs[i].members))
      && (forall i, j | 0 <= i < j < |subs| :: Elems(subs[i].members) !! Elems(subs[j].members))
    decreases |subs|
  {
    if |subs| > 0 {
      var rest := subs[1..];
      AllMembersNoDup(rest);
      AllMembersElems(rest);
      assert subs == [subs[0]] + rest;
      AllMembersCons(subs[0], rest);
      NoDupAppend(subs[0].members, AllMembers(rest));
      assert forall i | 1 <= i < |subs| :: subs[i] == rest[i - 1];
      var disjointHead := Elems(subs[0].members) !! Elems(AllMembers(rest));
      assert disjointHead <==> forall j | 1 <= j < |subs| :: Elems(subs[0].members) !! Elems(subs[j].members) by {
        if disjointHead {
          forall j | 1 <= j < |subs| ensures Elems(subs[0].members) !! Elems(subs[j].members) {
            forall x | x in Elems(subs[j].members) ensures x !in Elems(subs[0].members) {
              assert x in rest[j - 1].members;
              assert x in AllMembers(rest);
            }
          }
        }
        if forall j | 1 <= j < |subs| :: Elems(subs[0].members) !! Elems(subs[j].members) {
          forall x | x in Elems(AllMembers(rest)) ensures x !in Elems(subs[0].members) {
            var k :| 0 <= k < |rest| && x in rest[k].members;
            assert x in Elems(subs[k + 1].members);
          }
        }
      }
    }
  }

  /** The members a request names, when all its entries are well formed. */
  function Named(parse: UuidParser, raws: seq<Json>): set<Id>
    requires AllDecode(parse, raws)
  {
    Elems(AllMembers(Decoded(parse, raws)))
  }

  /** Every entry is well formed, and together they repeat no one and name only ids in `pool`. */
  ghost predicate Admissible(parse: UuidParser, raws: seq<Json>, pool: set<Id>) {
    && AllDecode(parse, raws)
    && NoDup(AllMembers(Decoded(parse, raws)))
    && Named(parse, raws) <= pool
  }

  lemma AdmissibleCons(parse: UuidParser, raws: seq<Json>, pool: set<Id>)
    requires |raws| > 0 && DecodeTeam(parse, raws[0]).Ok?
    ensures var d := DecodeTeam(parse, raws[0]).value;
      Admissible(parse, raws, pool) <==>
        NoDup(d.members) && Elems(d.members) <= pool && Admissible(parse, raws[1..], pool - Elems(d.members))
    ensures Admissible(parse, raws, pool) ==>
      var d := DecodeTeam(parse, raws[0]).value;
      && Named(parse, raws) == Elems(d.members) + Named(parse, raws[1..])
      && Decoded(parse, raws) == [d] + Decoded(parse, raws[1..])
  {
    var d := DecodeTeam(parse, raws[0]).value;
    DecodedCons(parse, raws);
    if AllDecode(parse, raws) {
      var tail := AllMembers(Decoded(parse, raws[1..]));
      AllMembersCons(d, Decoded(parse, raws[1..]));
      NoDupAppend(d.members, tail);
      ElemsAppend(d.members, tail);
    }
  }

  lemma TeamsOfCons(groupId: Id, d: Submitted, subs: seq<Submitted>)
    ensures TeamsOf(groupId, [d] + subs) == [Team(d.id, groupId, Elems(d.members))] + TeamsOf(groupId, subs)
  {
    var l := TeamsOf(groupId, [d] + subs);
    var r := [Team(d.id, groupId, Elems(d.members))] + TeamsOf(groupId, subs);
    assert |l| == |r|;
    forall i | 0 <= i < |l| ensures l[i] == r[i] {
      if i > 0 {
        assert ([d] + subs)[i] == subs[i - 1];
      }
    }
  }

  /**
    The fold succeeds exactly when the request is admissible for the
    unassigned pool, and it then yields one team per entry and moves exactly
    the named members across.
   */
  lemma {:induction false} CollectSpec(parse: UuidParser, groupId: Id, raws: seq<Json>, pool: Pool)
    ensures Collect(parse, groupId, raws, pool).Ok? <==> Admissible(parse, raws, pool.unassignedMembers)
    ensures Collect(parse, groupId, raws, pool).Ok? ==>
      Collect(parse, groupId, raws, pool).value ==
        Collected(TeamsOf(groupId, Decoded(parse, raws)),
                  Pool(pool.unassignedMembers - Named(parse, raws), pool.assignedMembers + Named(parse, raws)))
    decreases |raws|
  {
    if |raws| == 0 {
      assert Named(parse, raws) == {};
    } else if DecodeTeam(parse, raws[0]).Err? {
      DecodedCons(parse, raws);
    } else {
      var d := DecodeTeam(parse, raws[0]).value;
      var c := Claim(d.members, pool);
      if c.Ok? {
        CollectSpec(parse, groupId, raws[1..], c.value);
      }
      CollectSpecCons(parse, groupId, raws, pool, d);
    }
  }

  /** The statement of `CollectSpec` for one list and pool. */
  ghost predicate MeetsCollectSpec(parse: UuidParser, groupId: Id, raws: seq<Json>, pool: Pool) {
    var c := Collect(parse, groupId, raws, pool);
    && (c.Ok? <==> Admissible(parse, raws, pool.unassignedMembers))
    && (c.Ok? ==>
          c.value ==
            Collected(TeamsOf(groupId, Decoded(parse, raws)),
                      Pool(pool.unassignedMembers - Named(parse, raws), pool.assignedMembers + Named(parse, raws))))
  }

  /** The inductive step of `CollectSpec`, for a first entry that reads as `d`. */
  lemma CollectSpecCons(parse: UuidParser, groupId: Id, raws: seq<Json>, pool: Pool, d: Submitted)
    requires |raws| > 0 && DecodeTeam(parse, raws[0]) == Ok(d)
    ensures (Claim(d.members, pool).Ok? ==> MeetsCollectSpec(parse, groupId, raws[1..], Claim(d.members, pool).value)) ==>
      MeetsCollectSpec(parse, groupId, raws, pool)
  {
    if Claim(d.members, pool).Ok? ==> MeetsCollectSpec(parse, groupId, raws[1..], Claim(d.members, pool).value) {
      var rest := raws[1..];
      var c := Claim(d.members, pool);
      var whole := Collect(parse, groupId, raws, pool);
      AdmissibleCons(parse, raws, pool.unassignedMembers);
      if c.Ok? && whole.Ok? {
        TeamsOfCons(groupId, d, Decoded(parse, rest));
      }
    }
  }

  /** When every entry is well formed, the only way the fold can fail is a member already in another team. */
  lemma {:induction false} CollectFailsOnlyOnConflict(parse: UuidParser, groupId: Id, raws: seq<Json>, pool: Pool)
    requires AllDecode(parse, raws)
    ensures Collect(parse, groupId, raws, pool).Err? ==> Collect(parse, groupId, raws, pool).error.AlreadyInAnotherTeam?
    decreases |raws|
  {
    if |raws| > 0 {
      DecodedCons(parse, raws);
      var d := DecodeTeam(parse, raws[0]).value;
      var c := Claim(d.members, pool);
      if c.Ok? {
        CollectFailsOnlyOnConflict(parse, groupId, raws[1..], c.value);
      }
    }
  }

  /**
    When the entries before position `i` are admissible and entry `i` does
    not read, the loop answers with the error of entry `i`.
   */
  lemma {:induction false} CollectFirstBadEntry(parse: UuidParser, groupId: Id, raws: seq<Json>, pool: Pool, i: nat)
    requires i < |raws| && Admissible(parse, raws[..i], pool.unassignedMembers)
    requires DecodeTeam(parse, raws[i]).Err?
    ensures Collect(parse, groupId, raws, pool) == Err(DecodeTeam(parse, raws[i]).error)
    decreases i
  {
    if i > 0 {
      var before := raws[..i];
      assert before[0] == raws[0];
      assert before[1..] == raws[1..][..i - 1];
      assert raws[1..][i - 1] == raws[i];
      DecodedCons(parse, before);
      AdmissibleCons(parse, before, pool.unassignedMembers);
      var d := DecodeTeam(parse, raws[0]).value;
      CollectFirstBadEntry(parse, groupId, raws[1..], Claim(d.members, pool).value, i - 1);
    }
  }

  /** A failure after an entry that reads and claims cleanly is the failure of the rest of the loop. */
  lemma CollectPassesFailure(parse: UuidParser, groupId: Id, raws: seq<Json>, pool: Pool, d: Submitted, next: Pool)
    requires |raws| > 0 && DecodeTeam(parse, raws[0]) == Ok(d) && Claim(d.members, pool) == Ok(next)
    ensures Collect(parse, groupId, raws[1..], next).Err? ==>
      Collect(parse, groupId, raws, pool) == Collect(parse, groupId, raws[1..], next)
  {
  }

  /** At the head of the list, a claim that fails is reported as a conflict on the member it stops at. */
  lemma CollectConflictAtHead(parse: UuidParser, groupId: Id, raws: seq<Json>, pool: Pool)
    requires |raws| > 0 && DecodeTeam(parse, raws[0]).Ok?
    requires Claim(DecodeTeam(parse, raws[0]).value.members, pool).Err?
    ensures Collect(parse, groupId, raws, pool) ==
      Err(AlreadyInAnotherTeam(Claim(DecodeTeam(parse, raws[0]).value.members, pool).error))
  {
  }

  /**
    After an admissible first entry `d`, the pools the remaining earlier
    entries leave are the pools all the earlier entries leave.
   */
  lemma ConflictStepPools(parse: UuidParser, raws: seq<Json>, pool: Pool, i: nat)
    requires 0 < i < |raws| && Admissible(parse, raws[..i], pool.unassignedMembers)
    ensures DecodeTeam(parse, raws[0]).Ok?
    ensures var d := DecodeTeam(parse, raws[0]).value;
      && Claim(d.members, pool).Ok?
      && Admissible(parse, raws[1..][..i - 1], Claim(d.members, pool).value.unassignedMembers)
    ensures var d := DecodeTeam(parse, raws[0]).value;
      var next := Claim(d.members, pool).value;
      var rest := Named(parse, raws[1..][..i - 1]);
      var named := Named(parse, raws[..i]);
      Pool(next.unassignedMembers - rest, next.assignedMembers + rest) ==
        Pool(pool.unassignedMembers - named, pool.assignedMembers + named)
  {
    var before := raws[..i];
    assert before[0] == raws[0];
    assert before[1..] == raws[1..][..i - 1];
    DecodedCons(parse, before);
    AdmissibleCons(parse, before, pool.unassignedMembers);
  }

  /**
    When the entries before position `i` are admissible, entry `i` reads,
    and its members cannot be claimed from the pools the earlier entries
    leave, the loop answers "already in another team" for the member at
    which that claim stops.
   */
  lemma {:induction false} CollectFirstConflict(parse: UuidParser, groupId: Id, raws: seq<Json>, pool: Pool, i: nat)
    requires i < |raws| && Admissible(parse, raws[..i], pool.unassignedMembers)
    requires DecodeTeam(parse, raws[i]).Ok?
    requires var named := Named(parse, raws[..i]);
      Claim(DecodeTeam(parse, raws[i]).value.members,
            Pool(pool.unassignedMembers - named, pool.assignedMembers + named)).Err?
    ensures var named := Named(parse, raws[..i]);
      var blocked := Claim(DecodeTeam(parse, raws[i]).value.members,
                           Pool(pool.unassignedMembers - named, pool.assignedMembers + named)).error;
      Collect(parse, groupId, raws, pool) == Err(AlreadyInAnotherTeam(blocked))
    decreases i
  {
    if i == 0 {
      assert Named(parse, raws[..0]) == {} by { assert raws[..0] == []; }
      assert Pool(pool.unassignedMembers - {}, pool.assignedMembers + {}) == pool;
      CollectConflictAtHead(parse, groupId, raws, pool);
    } else {
      ConflictStepPools(parse, raws, pool, i);
      var d := DecodeTeam(parse, raws[0]).value;
      var next := Claim(d.members, pool).value;
      assert raws[1..][i - 1] == raws[i];
      CollectFirstConflict(parse, groupId, raws[1..], next, i - 1);
      CollectPassesFailure(parse, groupId, raws, pool, d, next);
    }
  }

  /**
    The flattened member list repeats no one and names exactly `members`
    precisely when the member lists partition `members`.
   */
  lemma PartitionIffFlatList(subs: seq<Submitted>, members: set<Id>)
    ensures NoDup(AllMembers(subs)) && Elems(AllMembers(subs)) == members <==> PartitionOf(subs, members)
  {
    AllMembersNoDup(subs);
    AllMembersElems(subs);
  }

  /**
    With the group's members as the unassigned pool and nobody assigned, the
    fold succeeds and leaves nobody unassigned exactly when the entries are
    well formed and their member lists partition the group; the assigned pool
    is then the whole group.
   */
  lemma CollectPartitions(parse: UuidParser, groupId: Id, raws: seq<Json>, members: set<Id>)
    ensures var c := Collect(parse, groupId, raws, Pool(members, {}));
      c.Ok? && c.value.pool.unassignedMembers == {} <==>
        AllDecode(parse, raws) && PartitionOf(Decoded(parse, raws), members)
    ensures var c := Collect(parse, groupId, raws, Pool(members, {}));
      c.Ok? && c.value.pool.unassignedMembers == {} ==>
        c.value.pool.assignedMembers == members && c.value.teams == TeamsOf(groupId, Decoded(parse, raws))
  {
    CollectSpec(parse, groupId, raws, Pool(members, {}));
    if AllDecode(parse, raws) {
      PartitionIffFlatList(Decoded(parse, raws), members);
    }
  }

  function TeamKey(t: Team): (Id, int) {
    (t.groupId, t.id)
  }

  /** No team after position `i` has the key of `teams[i]`. */
  predicate LastWithKey(teams: seq<Team>, i: int)
    requires 0 <= i < |teams|
  {
    forall j | i < j < |teams| :: TeamKey(teams[j]) != TeamKey(teams[i])
  }

  function KeysOf(teams: seq<Team>): set<(Id, int)> {
    set t | t in teams :: TeamKey(t)
  }

  /** Writes the teams in order, each under its (group, number) key. */
  function WriteTeams(s: Store, teams: seq<Team>): (r: Store)
    ensures r.users == s.users && r.groups == s.groups
    decreases |teams|
  {
    if |teams| == 0 then s
    else
      var n := |teams| - 1;
      var before := WriteTeams(s, teams[..n]);
      before.(teams := before.teams[TeamKey(teams[n]) := teams[n]])
  }

  lemma KeysOfSnoc(teams: seq<Team>)
    requires |teams| > 0
    ensures KeysOf(teams) == KeysOf(teams[..|teams| - 1]) + {TeamKey(teams[|teams| - 1])}
  {
    assert teams == teams[..|teams| - 1] + [teams[|teams| - 1]];
  }

  /** The writes add exactly the submitted keys. */
  lemma {:induction false} WriteTeamsKeys(s: Store, teams: seq<Team>)
    ensures WriteTeams(s, teams).teams.Keys == s.teams.Keys + KeysOf(teams)
    decreases |teams|
  {
    if |teams| > 0 {
      WriteTeamsKeys(s, teams[..|teams| - 1]);
      KeysOfSnoc(teams);
    }
  }

  /** Stored teams under keys no submitted team carries are kept. */
  lemma {:induction false} WriteTeamsKeepsOthers(s: Store, teams: seq<Team>, k: (Id, int))
    requires k in s.teams && k !in KeysOf(teams)
    ensures k in WriteTeams(s, teams).teams && WriteTeams(s, teams).teams[k] == s.teams[k]
    decreases |teams|
  {
    if |teams| > 0 {
      KeysOfSnoc(teams);
      WriteTeamsKeepsOthers(s, teams[..|teams| - 1], k);
    }
  }

  /** Each key a submitted team carries ends up holding the last team with that key. */
  lemma {:induction false} WriteTeamsLastWins(s: Store, teams: seq<Team>, i: int)
    requires 0 <= i < |teams| && LastWithKey(teams, i)
    ensures TeamKey(teams[i]) in WriteTeams(s, teams).teams
    ensures WriteTeams(s, teams).teams[TeamKey(teams[i])] == teams[i]
    decreases |teams|
  {
    var n := |teams| - 1;
    if i < n {
      var prefix := teams[..n];
      assert TeamKey(teams[n]) != TeamKey(teams[i]);
      assert LastWithKey(prefix, i) by {
        forall j | i < j < |prefix| ensures TeamKey(prefix[j]) != TeamKey(prefix[i]) {
          assert prefix[j] == teams[j];
        }
      }
      WriteTeamsLastWins(s, prefix, i);
    }
  }
}
