# TrainHunt session coordinator — a Dafny model

The TrainHunt backend is an in-memory coordinator for players. Each
player connects over a websocket and becomes a user. Users form groups
with one admin, and the admin splits the group into numbered teams.

This project models the core of `main.py`:

- the `DB` store: three maps holding users, groups and teams;
- the dispatcher `MessageHandler.handle_message`;
- the nine request handlers.

Each handler is a pure function from the store, the sender's id and the
decoded request payload to a `Step`. A `Step` holds:

- the store afterwards;
- the verdict for the sender (`Success` with data, or `Failure` with an
  error kind);
- the broadcasts to other users, as (recipients, message type, data).

The files:

- `wrappers.dfy`: `Option` and `Result`.
- `json.dfy`: decoded JSON values and the Python operations the handlers
  apply to them: truthiness, `dict.get`, `dict[key]`, iteration and
  `int()`. Each one reports the class of exception Python would raise.
- `entities.dfy`: ids, `User`, `Group`, `Team`, and the payload keys.
- `protocol.dfy`: message types, error kinds, payloads and envelopes.
- `store.dfy`: the `DB` operations.
- `teams.dfy`: the validation loop of `set_teams` and the writes of the
  accepted teams.
- `handlers.dfy`: the handlers.
- `dispatcher.dfy`: `handle_message`.
- `invariants.dfy`: store coherence and the requests that preserve it.
- `scenarios.dfy`: properties that span several requests.

Store reads in the source return deep copies. Here every record is an
immutable value, so a read can never alias the store, and the store
changes only through the write functions.

A parsing function for UUID text is passed to every handler that reads
an id from a payload. That covers the "invalid UUID" branches without
modelling the syntax Python's `UUID()` accepts.

Several handlers write back a record they have just read. Their model
requires `KeysMatch`: every record is stored under its own id. The store
cannot break this:

- the empty store has it (`Invariants.EmptyIsConsistent`);
- every request keeps it (`Invariants.KeysMatchAlways`);
- every connection keeps it (`Invariants.ConnectKeepsKeysMatch`).

Behaviour of `main.py` that a client might not expect, modelled as
written:

- There is no readiness flag and no mini-game: the nine request types
  are the whole protocol.
- `leave_group` removes only the sender; the admin cannot remove
  another member.
- Deleting a group does not delete its teams. They reappear if a group
  is later created under the same id (`Scenarios.DeletedTeamsResurface`).
- `set_teams` adds and overwrites teams by number, and never removes the
  group's earlier teams (`Scenarios.SetThenGetTeams`).
- A group's id is chosen by the client and is not checked for reuse.
  Creating a group under an existing id replaces that group
  (`Invariants.CreateOverwritesExistingGroup`).

## Model

| member | source | states |
|---|---|---|
| Store.GetUser | main.py:229-233 | the record stored under the id, or None exactly when no user has that id |
| Store.GetGroup | main.py:239-243 | the record stored under the id, or None exactly when no group has that id |
| Store.GetTeam | main.py:256-260 | the team stored under (group id, team number), or None exactly when there is none |
| Store.AddOrUpdateUser | main.py:225-227 | the user is readable under its id afterwards; no other user, group or team changes |
| Store.AddOrUpdateGroup | main.py:235-237 | the group is readable under its id afterwards; nothing else changes |
| Store.AddOrUpdateTeam | main.py:252-254 | the team is readable under (group id, team number); no other key, user or group changes |
| Store.DeleteGroup | main.py:245-250 | fails exactly when the group is absent; otherwise only that group goes, and users and teams stay as they were |
| Store.DeleteTeam | main.py:277-281 | fails exactly when no team is stored under that key; otherwise only that key goes |
| Store.GetGroupTeams | main.py:262-275 | fails exactly when the group is not stored; otherwise yields exactly the stored teams whose group is that group, possibly none |
| Store.WrittenTeamIsListed | main.py:252-275 | a team written for a stored group appears in that group's team listing |
| Store.TeamWriteIsLocal | main.py:252-275 | writing a team never changes another group's team listing |
| Store.DeletedGroupKeepsTeams | main.py:245-250 | deleting a group keeps its teams stored, but they can no longer be listed |
| JsonValue.ToInt | main.py:953 | `int()`: integers pass unchanged, `true` gives 1 and `false` gives 0; a string succeeds exactly when it is decimal text and then gives the number that text denotes, and otherwise raises ValueError; null, lists and dicts raise TypeError |
| JsonValue.ParseShowInt | main.py:953 | reading the decimal text of any integer gives that integer back |
| JsonValue.Elements | main.py:943 | iterating a list yields its items and a string yields its one-character strings in order; an empty value yields nothing; null, booleans and integers are not iterable |
| Entities.ToId | main.py:425 | `UUID(x)` succeeds exactly on a string the parser accepts, giving the parser's id; an unparsable string raises ValueError, None raises TypeError, and any other value raises AttributeError |
| Entities.NewUser | main.py:1049-1054 | a newly connected user has no name, no picture and no group |
| TeamAssignment.DecodeTeam | main.py:943-978 | an entry is accepted iff it is a dict whose `teamId` is truthy and read by `int()` and whose `teamMembers` is truthy, iterable and made only of UUID strings; the result carries that number and the parsed ids in order; a falsy number or member list is missing, a ValueError from `int()` or `UUID()` is an invalid value, and any other exception (including a non-dict entry) is internal |
| TeamAssignment.ToIds | main.py:971 | the member list is read exactly when every item is a UUID, item by item and in order; a failure carries the exception of the first item that does not parse |
| TeamAssignment.Claim | main.py:983-993 | claiming a list succeeds iff it repeats no one and names only unassigned members; it then moves exactly those members across; a failure names the member at the first position where claiming stops, after only distinct, unassigned members |
| TeamAssignment.Collect | main.py:939-993 | the loop over the entries: on success there is one team per entry, all under the sender's group, and members only move from the unassigned pool to the assigned one; its exact success condition is `TeamAssignment.CollectSpec`, and its errors are stated by `TeamAssignment.CollectFirstBadEntry` and `TeamAssignment.CollectFirstConflict` |
| TeamAssignment.CollectFirstBadEntry | main.py:943-978 | when the entries before one are admissible and that entry does not read, the loop answers with that entry's error: missing, invalid value or internal |
| TeamAssignment.CollectFirstConflict | main.py:983-993 | when the entries before one are admissible and that entry reads but cannot be claimed from the pools they leave, the loop answers "already in another team" for the member where the claim stops |
| TeamAssignment.CollectSpec | main.py:939-993 | the validation loop succeeds iff every entry is well formed and all the lists together repeat no one and stay within the unassigned pool; it then yields one team per entry and moves exactly the named members |
| TeamAssignment.CollectFailsOnlyOnConflict | main.py:983-993 | when every entry is well formed, the loop can fail only with "already in another team" |
| TeamAssignment.AllMembersNoDup | main.py:983-993 | the concatenated member lists repeat no one iff each list is duplicate-free and the lists are pairwise disjoint |
| TeamAssignment.CollectPartitions | main.py:939-1000 | starting from the group's members, the loop succeeds with nobody left over iff the lists partition the group; the assigned pool is then the whole group |
| TeamAssignment.WriteTeams | main.py:1003-1004 | writing the accepted teams changes no user and no group; what it does to the teams is stated by the three lemmas below |
| TeamAssignment.WriteTeamsKeys | main.py:1003-1004 | writing the teams adds exactly their keys to the stored keys, and removes none |
| TeamAssignment.WriteTeamsLastWins | main.py:1003-1004 | each key ends up holding the last submitted team with that key |
| TeamAssignment.WriteTeamsKeepsOthers | main.py:1003-1004 | stored teams under keys not submitted are kept unchanged |
| Handlers.RequestedId | main.py:418-425 | the id is read iff the payload is a dict whose value under the key is truthy and parses as a UUID; a falsy value is missing, an unparsable string is invalid, and anything else is internal |
| Handlers.HandleGetUserInfo | main.py:407-452 | succeeds iff the named user exists, and returns that record; never changes the store or notifies anyone |
| Handlers.HandleSetUserInfo | main.py:454-506 | succeeds iff the payload is a dict with `userName` and `picture`; stores them under the sender's id and keeps the sender's group; only the sender's record changes; other members of an existing group are notified |
| Handlers.HandleGetGroupInfo | main.py:508-553 | succeeds iff the named group exists, and returns its id, name and members; never changes anything |
| Handlers.RenameGroup | main.py:585-611 | only the admin may rename; a non-dict payload is invalid and a missing name is missing; on success only the name changes, and the other members get the new record |
| Handlers.CreateGroup | main.py:613-656 | succeeds iff the payload names a parsable group id and a name; the group then has the sender as admin and only member, and the sender's group is set; no check that the id is new; a non-dict payload or an unparsable id string is invalid, a missing id or name is missing, and an id of any other type is internal |
| Handlers.HandleSetGroupInfo | main.py:555-656 | a sender in a group goes to the rename branch and one in no group to the create branch; an unknown sender, or a sender whose group is gone, is an internal error |
| Handlers.HandleJoinGroup | main.py:658-737 | succeeds iff the payload names an existing group and the sender is a known user in no group; then the sender is added, their group is set, and the other members are told who joined |
| Handlers.HandleLeaveGroup | main.py:739-808 | succeeds iff the sender is a non-admin member of an existing group; then only the sender is removed and their group cleared, and the remaining members are told |
| Handlers.DetachAll | main.py:844-858 | the member loop of group deletion clears the group of exactly the stored users among the members, and changes nothing else |
| Handlers.HandleDeleteGroup | main.py:810-871 | succeeds iff the sender is the admin of their existing group; then every stored member is left in no group, the group is gone, its teams stay, and the other members get one message each |
| Handlers.HandleGetTeams | main.py:873-904 | succeeds iff the sender is in an existing group, and returns exactly the stored teams of that group; never changes anything |
| Handlers.AssignTeams | main.py:939-1022 | the part of `set_teams` after the admin checks: failures change nothing, users and groups never change, and a payload that cannot be iterated is internal; its success condition and writes are stated by `Scenarios.SetTeamsAccepts` |
| Handlers.HandleSetTeams | main.py:906-937 | only an admin of an existing group gets past the checks; users and groups never change, and a failure changes nothing |
| Protocol.ParseType | main.py:371 | `MessageType(tag)` yields a type exactly when `tag` is that type's spelling; together with `Protocol.ParseTypeInvertsTag` this is a bijection between spellings and types |
| Dispatcher.Dispatch | main.py:373-396 | the handler table: each of the nine request types is answered by its own handler, a failed request changes nothing, and a type without a handler gets "unknown message type" |
| Dispatcher.HandleMessage | main.py:360-405 | every response carries the request's id; an unknown tag or a type without a handler is an error; a failed request changes nothing and notifies nobody |
| Dispatcher.TagSelectsHandler | main.py:371-389 | a request tagged with a type's spelling is routed through the handler table under that type, so by `Dispatcher.Dispatch` it is answered by that type's handler, with the request's id |
| Dispatcher.OnlyRequestTagsReachHandlers | main.py:371-405 | any tag other than the nine request spellings is answered with an error and leaves the store as it was |
| Invariants.Connect | main.py:1049-1054 | a connection stores a new user with no name, picture or group under the connection's id, and changes no other user, group or team |
| Invariants.EmptyIsConsistent | main.py:220-223 | the empty store is coherent |
| Invariants.ConnectPreserves | main.py:1049-1054 | adding a newly connected user with a fresh id keeps the store coherent |
| Invariants.KeysMatchAlways | main.py:225-281 | every request keeps every record under its own key |
| Invariants.ConnectKeepsKeysMatch | main.py:1049-1054 | a connection keeps every record under its own key |
| Invariants.AdminsAreMembersAlways | main.py:615-617 | every request keeps each admin a member of their own group |
| Invariants.HandleMessagePreserves | main.py:360-1022 | every request keeps the membership records on both sides in agreement, except a group creation under an id already in use |
| Invariants.CreatePreserves | main.py:613-621 | creating a group under an unused id keeps the store coherent |
| Invariants.JoinPreserves | main.py:701-705 | joining keeps the store coherent |
| Invariants.LeavePreserves | main.py:781-785 | leaving keeps the store coherent |
| Invariants.DeletePreserves | main.py:844-863 | deleting a group keeps the store coherent |
| Invariants.CreateOverwritesExistingGroup | main.py:615-618 | a concrete coherent store in which creating a group under an existing id replaces that group and leaves its old admin pointing at it without being listed |
| Scenarios.SetThenGetUser | main.py:454-506 | after a successful `set_user_info`, `get_user_info` on the sender returns the sent name and picture with the old group |
| Scenarios.RenameThenGetGroup | main.py:585-611 | after a rename, `get_group_info` shows the new name with the same members |
| Scenarios.CreateThenGetGroup | main.py:613-627 | after a creation, `get_group_info` on the chosen id shows the sender as the only member |
| Scenarios.JoinThenLeaveRestores | main.py:658-808 | joining and then leaving gives back exactly the original store |
| Scenarios.AdminNeverLeaves | main.py:773-779 | in a coherent store an admin's leave request is always refused, and nothing changes |
| Scenarios.SetTeamsAccepts | main.py:939-1022 | an admin's `set_teams` succeeds iff the payload is a list of well-formed teams whose member lists partition the group; it then writes one team per entry and notifies every other member; a conflicting member gives "already in another team" and a missing member "some group members do not have a team" |
| Scenarios.SetThenGetTeams | main.py:1003-1004 | after `set_teams`, `get_teams` lists every submitted team not overwritten by a later entry, lists only submitted or previously stored teams, and still lists old teams whose numbers were not resubmitted |
| Scenarios.DistinctNumbersAllListed | main.py:1003-1004 | with distinct team numbers, every submitted team is listed afterwards |
| Scenarios.DuplicateNumberDropsTeam | main.py:981-1004 | two entries with the same number both pass, and the later replaces the earlier, so a member ends up in no stored team |
| Scenarios.SetTeamsFirstBadEntry | main.py:939-978 | an admin's `set_teams` whose earlier entries are admissible and whose next entry does not read is refused with that entry's error, and nothing changes |
| Scenarios.SetTeamsFirstConflict | main.py:939-993 | an admin's `set_teams` whose earlier entries are admissible and whose next entry names a member already taken, or one outside the group, is refused as "already in another team" for that member, and nothing changes |
| Scenarios.SetTeamsRefusesZeroNumber | main.py:943-952 | an admin's `set_teams` whose first entry has team number 0 is refused as missing a team number |
| Scenarios.ZeroTeamNumber | main.py:946-953 | team number 0 is refused as missing, but the string "0" is accepted as team 0 |
| Scenarios.DeletedTeamsResurface | main.py:245-250 | after deleting a group and re-creating it under the same id, `get_teams` lists the old teams again |

## Left out

- Transport is not modelled: the FastAPI app, the file route, the websocket endpoint's read loop and `WebSocketManager`. Outgoing messages are an outbox of (recipients, type, data), one entry per broadcast.
- Disconnection (`WebSocketManager.disconnect`) is not modelled; it is connection management outside the request handlers.
- JSON encoding and decoding, `Message.from_dict`/`to_dict`, and the protocol-error branches of the websocket loop (main.py:1061-1113) are not modelled. Payloads are already-decoded `Json` values.
- `uuid4` is not modelled: request ids of broadcasts are random and play no part in any property. The parsing of UUID text is a parameter.
- The sender's id is used directly where the source re-parses its hex form (`UUID(user_id.hex)`), on the understanding that this gives the same id back.
- Sends are assumed never to raise. In the source a `send_json` that raises comes after the store writes. `set_user_info`, the rename branch of `set_group_info`, `join_group` and `leave_group` then answer with an error while keeping their writes. In `set_teams` the exception reaches `handle_message` after the teams are written. In `delete_group` it stops the member loop with only some members detached and the group still stored. The model's "a failed request changes nothing" holds only under this assumption.
- Logging is not modelled, including `log_message`.
- The exact error strings are not modelled. Each failure reports an `ErrorKind`; an exception that escapes a handler is reported as `Internal`, as is the dispatcher's own ValueError for an unknown tag.
- Floating-point JSON numbers are not part of `Json`.
- `int()` on strings accepts only an optional sign and ASCII digits. Surrounding whitespace, underscores and non-ASCII digits are not modelled.
- A non-empty JSON object used where a list is iterated is not modelled. Python would iterate its keys; the model treats it as an internal error.
- The teams returned by `get_teams` form a set here, not an ordered list.
- Interleaving of other requests at the `await` points inside `delete_group`'s member loop is not modelled. Handlers run one at a time.
- `DB.delete_team` logs a spurious "not found" on every call, because it looks up the bare team number among tuple keys. Only logging is affected, so `Store.DeleteTeam` models just the deletion.
- `DB.get_team` is modelled as `Store.GetTeam`; no handler calls it.
- Handlers.AssignTeams: its own contract states only the frame and the payload-shape error. The full acceptance condition is proved about the handler in `Scenarios.SetTeamsAccepts`.
- The test file is a live-websocket integration test and is not modelled.
