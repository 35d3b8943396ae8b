/** `World` of `src/state/world.rs` with its indexes and back-pointers, and the login, session and room
    handlers that keep them: `src/auth/login.rs`, `src/auth/create.rs`, `src/handlers.rs`, `src/room/mod.rs`
    and `src/room/admin.rs`. Each handler is one step, and is proved to do to the indexed tables what
    `Server.Step` does to the state without indexes. */
module Worlds {
  import opened Names
  import opened Numbers
  import opened Options
  import opened Rooms
  import opened Server

  datatype Account = Account(user: User, roomId: Option<string>)

  type Accounts = map<string, Account>
  type RoomTable = map<string, Room>

  function RoomKey(env: string, name: string): string {
    env + ":" + Upper(name)
  }

  function KeyOf(r: Room): string {
    RoomKey(r.env, r.name)
  }

  function Users(accounts: Accounts): map<string, User> {
    map s | s in accounts :: accounts[s].user
  }

  /** The same sessions, wherever they are. */
  ghost predicate SameUsers(a: Accounts, b: Accounts) {
    Users(a) == Users(b) && a.Keys == b.Keys && forall s :: s in a ==> a[s].user == b[s].user
  }

  /** Both session indexes are exact inverses of the accounts by socket. */
  ghost predicate SessionsExact(accounts: Accounts, byMember: map<int, string>, byName: map<string, string>) {
    && (forall s :: s in accounts ==>
          && accounts[s].user.member in byMember && byMember[accounts[s].user.member] == s
          && accounts[s].user.account in byName && byName[accounts[s].user.account] == s)
    && (forall m :: m in byMember ==> byMember[m] in accounts && accounts[byMember[m]].user.member == m)
    && (forall n :: n in byName ==> byName[n] in accounts && accounts[byName[n]].user.account == n)
  }

  /** The back-pointer of an account is the room it is in, and only that. */
  ghost predicate PlacesExact(accounts: Accounts, rooms: RoomTable) {
    forall s, r :: s in accounts ==> (accounts[s].roomId == Some(r) <==> IsIn(rooms, r, accounts[s].user.member))
  }

  /** The name index has exactly the rooms, each under its key. */
  ghost predicate NamesExact(rooms: RoomTable, byKey: map<string, string>) {
    && (forall r :: r in rooms ==> KeyOf(rooms[r]) in byKey && byKey[KeyOf(rooms[r])] == r)
    && (forall k :: k in byKey ==> byKey[k] in rooms && KeyOf(rooms[byKey[k]]) == k)
  }

  /** Two rooms of colon-free environments have the same key exactly when they have the same environment and
      the same name but for case. */
  lemma KeysAgreeIff(r: Room, env: string, name: string)
    requires ':' !in r.env && ':' !in env
    ensures KeyOf(r) == RoomKey(env, name) <==> IsNamed(r, env, name)
  {
    hide Upper;
    if KeyOf(r) == RoomKey(env, name) {
      ColonSplits(r.env, Upper(r.name), env, Upper(name));
    }
  }

  /** Looking a name up in the index finds the same room as looking at them all. */
  lemma IndexIsScan(rooms: RoomTable, byKey: map<string, string>, env: string, name: string)
    requires NamesExact(rooms, byKey) && ':' !in env && forall r :: r in rooms ==> ':' !in rooms[r].env
    ensures RoomNamed(rooms, env, name) ==
      if RoomKey(env, name) in byKey then Some(byKey[RoomKey(env, name)]) else None
  {
    hide RoomKey, IsNamed;
    forall r | r in rooms ensures KeyOf(rooms[r]) == RoomKey(env, name) <==> IsNamed(rooms[r], env, name) {
      KeysAgreeIff(rooms[r], env, name);
    }
  }

  // ----- Single changes to the tables -----

  lemma ClearedPlaces(accounts: Accounts, rooms: RoomTable, s: string)
    requires PlacesExact(accounts, rooms) && s in accounts
    requires forall t :: t in accounts && t != s ==> accounts[t].user.member != accounts[s].user.member
    ensures PlacesExact(accounts[s := accounts[s].(roomId := None)], Evict(rooms, accounts[s].user.member))
  {
    hide IsIn, Evict;
    var m := accounts[s].user.member;
    forall t | t in accounts
      ensures forall r :: IsIn(Evict(rooms, m), r, accounts[t].user.member) <==>
                IsIn(rooms, r, accounts[t].user.member) && accounts[t].user.member != m
    {
      EvictMovesOne(rooms, m, accounts[t].user.member);
    }
  }

  lemma EnteredPlaces(accounts: Accounts, rooms: RoomTable, s: string, r: string, room: Room)
    requires PlacesExact(accounts, rooms) && s in accounts
    requires forall t :: t in accounts && t != s ==> accounts[t].user.member != accounts[s].user.member
    requires forall q :: !IsIn(rooms, q, accounts[s].user.member)
    requires forall x :: x in room.members <==> IsIn(rooms, r, x)
    ensures PlacesExact(accounts[s := accounts[s].(roomId := Some(r))],
                        rooms[r := Entered(room, accounts[s].user.member)])
  {
  }

  lemma ReplacedPlaces(accounts: Accounts, rooms: RoomTable, r: string, room: Room)
    requires PlacesExact(accounts, rooms) && forall x :: x in room.members <==> IsIn(rooms, r, x)
    ensures PlacesExact(accounts, rooms[r := room])
  {
  }

  lemma DepartedPlaces(accounts: Accounts, rooms: RoomTable, s: string)
    requires PlacesExact(accounts, rooms)
    ensures PlacesExact(accounts - {s}, rooms)
  {
    hide IsIn;
  }

  lemma ArrivedPlaces(accounts: Accounts, rooms: RoomTable, s: string, u: User)
    requires PlacesExact(accounts, rooms) && s !in accounts && forall q :: !IsIn(rooms, q, u.member)
    ensures PlacesExact(accounts[s := Account(u, None)], rooms)
  {
    hide IsIn;
  }

  lemma DepartedSessions(accounts: Accounts, byMember: map<int, string>, byName: map<string, string>, s: string)
    requires SessionsExact(accounts, byMember, byName) && s in accounts
    ensures SessionsExact(accounts - {s}, byMember - {accounts[s].user.member}, byName - {accounts[s].user.account})
  {
  }

  lemma ArrivedSessions(accounts: Accounts, byMember: map<int, string>, byName: map<string, string>, s: string, u: User)
    requires SessionsExact(accounts, byMember, byName) && s !in accounts
    requires u.member !in byMember && u.account !in byName
    ensures SessionsExact(accounts[s := Account(u, None)], byMember[u.member := s], byName[u.account := s])
  {
  }

  /** Only the back-pointer changes. */
  lemma PointedSessions(accounts: Accounts, byMember: map<int, string>, byName: map<string, string>, s: string,
                        o: Option<string>)
    requires SessionsExact(accounts, byMember, byName) && s in accounts
    ensures SessionsExact(accounts[s := accounts[s].(roomId := o)], byMember, byName)
    ensures SameUsers(accounts[s := accounts[s].(roomId := o)], accounts)
    ensures forall t :: t in accounts && t != s ==> accounts[t].user.member != accounts[s].user.member
  {
  }

  lemma RemovedNames(rooms: RoomTable, byKey: map<string, string>, r: string)
    requires NamesExact(rooms, byKey) && r in rooms
    ensures NamesExact(rooms - {r}, byKey - {KeyOf(rooms[r])})
  {
    hide KeyOf;
  }

  lemma AddedNames(rooms: RoomTable, byKey: map<string, string>, r: string, room: Room)
    requires NamesExact(rooms, byKey) && r !in rooms && KeyOf(room) !in byKey
    ensures NamesExact(rooms[r := room], byKey[KeyOf(room) := r])
  {
    hide KeyOf;
  }

  lemma ReplacedNames(rooms: RoomTable, byKey: map<string, string>, r: string, room: Room)
    requires NamesExact(rooms, byKey) && r in rooms
    requires KeyOf(room) == KeyOf(rooms[r]) || KeyOf(room) !in byKey
    ensures
      var key, before := KeyOf(room), KeyOf(rooms[r]);
      NamesExact(rooms[r := room], if key == before then byKey else (byKey - {before})[key := r])
  {
    hide KeyOf;
  }

  /** A name nobody has is under no key. */
  lemma UntakenKey(rooms: RoomTable, byKey: map<string, string>, env: string, name: string)
    requires NamesExact(rooms, byKey) && ':' !in env && forall r :: r in rooms ==> ':' !in rooms[r].env
    requires !NameTaken(rooms, name)
    ensures RoomKey(env, name) !in byKey
  {
    IndexIsScan(rooms, byKey, env, name);
    hide Upper, RoomKey;
  }

  /** With `m` only in room `r`, evicting `m` is leaving that room. */
  lemma EvictIsLeaving(rooms: RoomTable, r: string, m: int)
    requires r in rooms && m in rooms[r].members
    requires forall q :: q in rooms && q != r ==> m !in rooms[q].members
    requires forall q :: q in rooms ==> rooms[q].members != []
    ensures Evict(rooms, m) ==
      if Left(rooms[r], m).members == [] then rooms - {r} else rooms[r := Left(rooms[r], m)]
  {
    hide Without;
    assert forall q :: q in rooms && q != r ==> Left(rooms[q], m) == rooms[q];
    var want := if Left(rooms[r], m).members == [] then rooms - {r} else rooms[r := Left(rooms[r], m)];
    assert Evict(rooms, m).Keys == want.Keys;
    assert forall q :: q in want ==> Evict(rooms, m)[q] == want[q];
  }

  lemma EvictNobody(rooms: RoomTable, m: int)
    requires forall q :: q in rooms ==> m !in rooms[q].members && rooms[q].members != []
    ensures Evict(rooms, m) == rooms
  {
    hide Without;
    assert forall q :: q in rooms ==> Left(rooms[q], m) == rooms[q];
  }

  lemma PlaceIsRoomOf(accounts: Accounts, rooms: RoomTable, s: string, here: set<int>, issued: set<string>)
    requires PlacesExact(accounts, rooms) && s in accounts && RoomsOk(rooms, here, issued)
    ensures RoomOf(rooms, accounts[s].user.member) == accounts[s].roomId
  {
    hide RoomOk, Upper;
    var m := accounts[s].user.member;
    var o := RoomOf(rooms, m);
    assert accounts[s].roomId.Some? ==> IsIn(rooms, accounts[s].roomId.value, m);
    if o.Some? {
      assert IsIn(rooms, o.value, m);
    }
  }

  lemma SomebodyIs(accounts: Accounts, m: int)
    requires m in Present(Users(accounts))
    ensures exists s :: s in accounts && accounts[s].user.member == m
  {
    var t :| t in Users(accounts) && Users(accounts)[t].member == m;
    assert accounts[t].user.member == m;
  }

  class World {
    var accountsBySocket: Accounts
    var socketByMember: map<int, string>
    var socketByAccountName: map<string, string>
    var chatRooms: RoomTable
    var roomByNameEnv: map<string, string>
    /** The accounts in the store, with their numbers. */
    var registered: map<string, int>
    var nextMemberNumber: int
    /** Every id ever given to a room. */
    ghost var issued: set<string>

    ghost function State(): Hall
      reads this
    {
      Hall(Users(accountsBySocket), chatRooms, issued, registered, nextMemberNumber)
    }

    ghost predicate Sessions()
      reads this
    {
      SessionsExact(accountsBySocket, socketByMember, socketByAccountName)
    }

    ghost predicate Exact()
      reads this
    {
      Sessions() && PlacesExact(accountsBySocket, chatRooms) && NamesExact(chatRooms, roomByNameEnv)
    }

    ghost predicate Valid()
      reads this
    {
      Exact() && Inv(State())
    }

    ghost predicate RoomsAreOk()
      reads this
    {
      RoomsOk(chatRooms, Present(Users(accountsBySocket)), issued)
    }

    constructor (store: map<string, int>, next: int)
      requires RegistryOk(store, next)
      ensures Valid() && State() == Hall(map[], map[], {}, store, next)
    {
      accountsBySocket, socketByMember, socketByAccountName := map[], map[], map[];
      chatRooms, roomByNameEnv, issued := map[], map[], {};
      registered, nextMemberNumber := store, next;
    }

    // ----- Rooms -----

    method GetRoomByName(env: string, name: string) returns (o: Option<string>)
      requires Exact() && ':' !in env && forall r :: r in chatRooms ==> ':' !in chatRooms[r].env
      ensures o == RoomNamed(chatRooms, env, name)
    {
      hide RoomKey, Upper, PlacesExact, SessionsExact;
      IndexIsScan(chatRooms, roomByNameEnv, env, name);
      var key := RoomKey(env, name);
      o := None;
      if key in roomByNameEnv {
        o := if roomByNameEnv[key] in chatRooms then Some(roomByNameEnv[key]) else None;
      }
    }

    method InsertRoom(id: string, room: Room)
      requires NamesExact(chatRooms, roomByNameEnv) && id !in chatRooms && KeyOf(room) !in roomByNameEnv
      modifies `chatRooms, `roomByNameEnv
      ensures chatRooms == old(chatRooms)[id := room] && NamesExact(chatRooms, roomByNameEnv)
    {
      AddedNames(chatRooms, roomByNameEnv, id, room);
      roomByNameEnv := roomByNameEnv[KeyOf(room) := id];
      chatRooms := chatRooms[id := room];
    }

    method RemoveRoom(id: string)
      requires NamesExact(chatRooms, roomByNameEnv)
      modifies `chatRooms, `roomByNameEnv
      ensures chatRooms == old(chatRooms) - {id} && NamesExact(chatRooms, roomByNameEnv)
    {
      if id in chatRooms {
        RemovedNames(chatRooms, roomByNameEnv, id);
        roomByNameEnv := roomByNameEnv - {KeyOf(chatRooms[id])};
        chatRooms := chatRooms - {id};
      }
    }

    /** Takes `m` out of the room it is in, and drops the room if that leaves it empty. */
    method LeaveRoomInner(id: string, m: int)
      requires Exact() && RoomsAreOk() && IsIn(chatRooms, id, m)
      modifies `chatRooms, `roomByNameEnv, `accountsBySocket
      ensures Exact() && chatRooms == Evict(old(chatRooms), m)
      ensures SameUsers(accountsBySocket, old(accountsBySocket))
    {
      hide SessionsExact, NamesExact, RoomsOk, Evict, Users;
      OnlyRoomOf(chatRooms, Present(Users(accountsBySocket)), issued, id, m);
      ghost var rooms := chatRooms;
      ShrinkRoom(id, m);
      ClearPointer(rooms, m);
    }

    method ShrinkRoom(id: string, m: int)
      requires NamesExact(chatRooms, roomByNameEnv) && IsIn(chatRooms, id, m)
      requires forall q :: q in chatRooms && q != id ==> m !in chatRooms[q].members
      requires forall q :: q in chatRooms ==> chatRooms[q].members != []
      modifies `chatRooms, `roomByNameEnv
      ensures NamesExact(chatRooms, roomByNameEnv) && chatRooms == Evict(old(chatRooms), m)
    {
      hide NamesExact, Evict, KeyOf, Left;
      ghost var rooms := chatRooms;
      EvictIsLeaving(rooms, id, m);
      LeftKeepsName(chatRooms[id], m);
      ReplacedNames(chatRooms, roomByNameEnv, id, Left(chatRooms[id], m));
      chatRooms := chatRooms[id := Left(chatRooms[id], m)];
      if chatRooms[id].members == [] {
        RemoveRoom(id);
        assert chatRooms == rooms - {id};
      }
    }

    /** The account of `m`, found by looking at them all, is in no room. */
    method ClearPointer(ghost rooms: RoomTable, m: int)
      requires Sessions() && PlacesExact(accountsBySocket, rooms) && m in Present(Users(accountsBySocket))
      modifies `accountsBySocket
      ensures Sessions() && PlacesExact(accountsBySocket, Evict(rooms, m))
      ensures SameUsers(accountsBySocket, old(accountsBySocket))
    {
      hide SessionsExact, PlacesExact, Evict;
      SomebodyIs(accountsBySocket, m);
      var s :| s in accountsBySocket && accountsBySocket[s].user.member == m;
      PointedSessions(accountsBySocket, socketByMember, socketByAccountName, s, None);
      ClearedPlaces(accountsBySocket, rooms, s);
      accountsBySocket := accountsBySocket[s := accountsBySocket[s].(roomId := None)];
    }

    /** Takes the account out of its room, if it is in one. */
    method LeaveCurrentRoom(s: string)
      requires Valid() && s in accountsBySocket
      modifies `chatRooms, `roomByNameEnv, `accountsBySocket
      ensures Exact() && chatRooms == Evict(old(chatRooms), old(accountsBySocket)[s].user.member)
      ensures SameUsers(accountsBySocket, old(accountsBySocket))
    {
      hide SessionsExact, NamesExact, PlacesExact, Evict, Inv;
      var acc := accountsBySocket[s];
      InvHasRooms(State());
      PlaceIsRoomOf(accountsBySocket, chatRooms, s, Present(Users(accountsBySocket)), issued);
      if acc.roomId.Some? {
        LeaveRoomInner(acc.roomId.value, acc.user.member);
      } else {
        RoomsAreUsed(State());
        EvictNobody(chatRooms, acc.user.member);
      }
    }

    method HandleChatRoomLeave(s: string)
      requires Valid()
      modifies this
      ensures Valid() && State() == AfterLeaveRoom(old(State()), s)
    {
      hide Inv, SessionsExact, PlacesExact, NamesExact, Evict;
      DisconnectKeepsInv(State(), s);
      if s in accountsBySocket {
        LeaveCurrentRoom(s);
      }
    }

    /** Fills in the old flag from the role list, or the role list from the old flag. */
    static method FillRoles(roles: Option<seq<string>>, flag: Option<bool>, restricted: seq<string>)
      returns (roles': Option<seq<string>>, flag': Option<bool>)
      ensures roles' == RolesAsked(roles, flag, restricted) && flag' == FlagAsked(roles, flag)
    {
      roles', flag' := roles, flag;
      if roles.Some? {
        flag' := Some(IsRestrictive(roles.value));
      } else if flag.Some? {
        roles' := Some(if flag.value then restricted else [ALL]);
      }
    }

    /** The room of a valid request. */
    static method BuildRoom(q: RoomRequest, env: string, creator: int) returns (room: Room)
      requires ValidCreate(q)
      ensures room == Created(q, env, creator)
    {
      hide LimitOf, IsRoomName, IsRestrictive, RolesAsked, FlagAsked;
      var visibility, private := FillRoles(q.visibility, q.private, [ADMIN]);
      var access, locked := FillRoles(q.access, q.locked, [ADMIN, WHITELIST]);
      room := NewRoom(q.name, env, creator);
      if visibility.Some? {
        room := room.(visibility := visibility.value, private := IsRestrictive(visibility.value));
      }
      if access.Some? {
        room := room.(access := access.value, locked := IsRestrictive(access.value));
      }
      AllIsOpen();
      room := room.(admin := OrElse(q.admin, [creator]), ban := OrElse(q.ban, []), whitelist := OrElse(q.whitelist, []),
                    limit := LimitOf(q.limit));
    }

    method HandleChatRoomCreate(s: string, id: string, q: RoomRequest) returns (reply: Reply)
      requires Valid() && id !in issued
      modifies this
      ensures Valid() && reply == CreateReply(old(State()), s, q)
      ensures State() == AfterCreateRoom(old(State()), s, id, q)
    {
      hide Inv, SessionsExact, PlacesExact, NamesExact, Evict, ValidCreate, Created;
      CreateRoomKeepsInv(State(), s, id, q);
      if !ValidCreate(q) {
        return InvalidRoomData;
      }
      if s !in accountsBySocket {
        return AccountError;
      }
      if NameTaken(chatRooms, q.name) {
        return RoomAlreadyExist;
      }
      OpenRoom(s, id, q);
      return Done;
    }

    /** Leaves the room before, and enters the new one. */
    method OpenRoom(s: string, id: string, q: RoomRequest)
      requires Valid() && id !in issued && s in accountsBySocket && ValidCreate(q) && !NameTaken(chatRooms, q.name)
      modifies this
      ensures Exact() && State() == AfterCreateRoom(old(State()), s, id, q)
    {
      hide Inv, SessionsExact, PlacesExact, NamesExact, Evict, ValidCreate, Created, KeyOf, NameTaken, Entered;
      var acc := accountsBySocket[s];
      var me := acc.user.member;
      RoomsAreUsed(State());
      UsersHaveColonFree(State(), s);
      LeaveCurrentRoom(s);
      EvictKeepsFacts(old(chatRooms), me, q.name);
      var room := BuildRoom(q, acc.user.env, me);
      CreatedShape(q, acc.user.env, me);
      UntakenKey(chatRooms, roomByNameEnv, acc.user.env, q.name);
      ghost var rooms := chatRooms;
      InsertRoom(id, Entered(room, me));
      PointTo(rooms, s, id, room);
      issued := issued + {id};
    }

    /** Lets the account of `s` enter `room`, which is now at `id`. */
    method PointTo(ghost rooms: RoomTable, s: string, id: string, ghost room: Room)
      requires Sessions() && PlacesExact(accountsBySocket, rooms) && s in accountsBySocket
      requires forall q :: !IsIn(rooms, q, accountsBySocket[s].user.member)
      requires forall x :: x in room.members <==> IsIn(rooms, id, x)
      modifies `accountsBySocket
      ensures Sessions() && SameUsers(accountsBySocket, old(accountsBySocket))
      ensures PlacesExact(accountsBySocket, rooms[id := Entered(room, old(accountsBySocket)[s].user.member)])
    {
      hide SessionsExact, PlacesExact, Entered;
      PointedSessions(accountsBySocket, socketByMember, socketByAccountName, s, Some(id));
      EnteredPlaces(accountsBySocket, rooms, s, id, room);
      accountsBySocket := accountsBySocket[s := accountsBySocket[s].(roomId := Some(id))];
    }

    /** The checks of a join, in their order, and the room found. */
    method CheckJoin(s: string, name: string) returns (reply: Reply, found: Option<string>)
      requires Valid()
      ensures reply == JoinReply(State(), s, name)
      ensures reply == Done ==>
        s in accountsBySocket && found == RoomNamed(chatRooms, accountsBySocket[s].user.env, name)
    {
      hide Inv, SessionsExact, PlacesExact, NamesExact, IsNamed, HasAnyRole, IsFull, Users;
      found := None;
      if name == "" {
        return InvalidRoomData, found;
      }
      SocketHasUser(accountsBySocket, s);
      if s !in accountsBySocket {
        return AccountError, found;
      }
      var acc := accountsBySocket[s];
      RoomsAreUsed(State());
      UsersHaveColonFree(State(), s);
      found := GetRoomByName(acc.user.env, name);
      if found.None? {
        return CannotFindRoom, found;
      }
      var room := chatRooms[found.value];
      if IsFull(room) {
        return RoomFull, found;
      }
      if acc.user.member in room.ban {
        return RoomBanned, found;
      }
      if !HasAnyRole(acc.user.member, room, room.access) {
        return RoomLocked, found;
      }
      RoomIdIsRoom(s, found.value);
      return if acc.roomId == found then AlreadyInRoom else Done, found;
    }

    method HandleChatRoomJoin(s: string, name: string) returns (reply: Reply)
      requires Valid()
      modifies this
      ensures Valid() && reply == JoinReply(old(State()), s, name)
      ensures State() == AfterJoinRoom(old(State()), s, name)
    {
      hide Inv, SessionsExact, PlacesExact, NamesExact, Evict, JoinReply, RoomNamed, Entered, Users;
      JoinRoomKeepsInv(State(), s, name);
      SocketHasUser(accountsBySocket, s);
      var found;
      reply, found := CheckJoin(s, name);
      if reply == Done {
        DoneIsOutside(State(), s, name);
        EnterOther(s, found.value);
      }
    }

    lemma RoomIdIsRoom(s: string, r: string)
      requires PlacesExact(accountsBySocket, chatRooms) && s in accountsBySocket && r in chatRooms
      ensures accountsBySocket[s].roomId == Some(r) <==> accountsBySocket[s].user.member in chatRooms[r].members
    {
      assert IsIn(chatRooms, r, accountsBySocket[s].user.member) <==>
        accountsBySocket[s].user.member in chatRooms[r].members;
    }

    /** Leaves the room before, and enters another that is there. */
    method EnterOther(s: string, id: string)
      requires Valid() && s in accountsBySocket && id in chatRooms
      requires accountsBySocket[s].user.member !in chatRooms[id].members
      modifies `chatRooms, `roomByNameEnv, `accountsBySocket
      ensures Exact()
      ensures
        var me := old(accountsBySocket)[s].user.member;
        State() == old(State()).(rooms := Evict(old(chatRooms), me)[id := Entered(old(chatRooms)[id], me)])
    {
      hide Inv, SessionsExact, PlacesExact, NamesExact, Evict, KeyOf;
      var me := accountsBySocket[s].user.member;
      RoomsAreUsed(State());
      StaysWithout(chatRooms, id, me);
      LeaveCurrentRoom(s);
      EvictKeepsFacts(old(chatRooms), me, "");
      ghost var rooms := chatRooms;
      var room := chatRooms[id];
      EnteredKey(room, me);
      ReplacedNames(chatRooms, roomByNameEnv, id, Entered(room, me));
      chatRooms := chatRooms[id := Entered(room, me)];
      PointTo(rooms, s, id, room);
    }

    // ----- Sessions -----

    method InsertAccount(s: string, u: User)
      requires Exact() && s !in accountsBySocket && u.member !in socketByMember && u.account !in socketByAccountName
      requires forall q :: !IsIn(chatRooms, q, u.member)
      modifies `accountsBySocket, `socketByMember, `socketByAccountName
      ensures Exact() && Users(accountsBySocket) == Users(old(accountsBySocket))[s := u]
    {
      hide SessionsExact, PlacesExact, NamesExact;
      ArrivedSessions(accountsBySocket, socketByMember, socketByAccountName, s, u);
      ArrivedPlaces(accountsBySocket, chatRooms, s, u);
      socketByMember := socketByMember[u.member := s];
      socketByAccountName := socketByAccountName[u.account := s];
      accountsBySocket := accountsBySocket[s := Account(u, None)];
    }

    method RemoveAccount(s: string)
      requires Exact()
      modifies `accountsBySocket, `socketByMember, `socketByAccountName
      ensures Exact() && Users(accountsBySocket) == Users(old(accountsBySocket)) - {s}
    {
      hide SessionsExact, PlacesExact, NamesExact;
      if s in accountsBySocket {
        DepartedSessions(accountsBySocket, socketByMember, socketByAccountName, s);
        DepartedPlaces(accountsBySocket, chatRooms, s);
        var acc := accountsBySocket[s];
        accountsBySocket := accountsBySocket - {s};
        socketByMember := socketByMember - {acc.user.member};
        socketByAccountName := socketByAccountName - {acc.user.account};
      } else {
        assert Users(accountsBySocket) - {s} == Users(accountsBySocket);
      }
    }

    /** Takes `m` out of every room, then drops the rooms this leaves empty. */
    method EmptyRoomsOf(m: int)
      requires NamesExact(chatRooms, roomByNameEnv)
      modifies `chatRooms, `roomByNameEnv
      ensures NamesExact(chatRooms, roomByNameEnv) && chatRooms == Evict(old(chatRooms), m)
    {
      hide NamesExact, KeyOf, Left, Evict;
      ghost var rooms := chatRooms;
      var ids, emptied := chatRooms.Keys, {};
      while ids != {}
        invariant ids <= rooms.Keys && chatRooms.Keys == rooms.Keys && NamesExact(chatRooms, roomByNameEnv)
        invariant forall r :: r in rooms ==> chatRooms[r] == if r in ids then rooms[r] else Left(rooms[r], m)
        invariant emptied <= rooms.Keys - ids
        invariant forall r :: r in rooms && r !in ids ==> (r in emptied <==> Left(rooms[r], m).members == [])
        decreases ids
      {
        var r :| r in ids;
        LeftKeepsName(chatRooms[r], m);
        ReplacedNames(chatRooms, roomByNameEnv, r, Left(chatRooms[r], m));
        chatRooms := chatRooms[r := Left(chatRooms[r], m)];
        if chatRooms[r].members == [] {
          emptied := emptied + {r};
        }
        ids := ids - {r};
      }
      ghost var left := chatRooms;
      var todo := emptied;
      while todo != {}
        invariant todo <= emptied && NamesExact(chatRooms, roomByNameEnv)
        invariant chatRooms == left - (emptied - todo)
        decreases todo
      {
        var r :| r in todo;
        RemoveRoom(r);
        todo := todo - {r};
      }
      EmptiedGone(rooms, left, emptied, m);
      assert left - (emptied - {}) == left - emptied;
    }

    method RemoveMemberFromAllRooms(m: int)
      requires Exact()
      modifies `chatRooms, `roomByNameEnv, `accountsBySocket
      ensures Exact() && chatRooms == Evict(old(chatRooms), m) && SameUsers(accountsBySocket, old(accountsBySocket))
    {
      hide NamesExact, Evict;
      ghost var rooms := chatRooms;
      EmptyRoomsOf(m);
      if m in socketByMember {
        var sid := socketByMember[m];
        PointedSessions(accountsBySocket, socketByMember, socketByAccountName, sid, None);
        ClearedPlaces(accountsBySocket, rooms, sid);
        accountsBySocket := accountsBySocket[sid := accountsBySocket[sid].(roomId := None)];
      } else {
        AbsentPlaces(accountsBySocket, rooms, m);
      }
    }

    method AllocateMemberNumber() returns (n: int)
      modifies `nextMemberNumber
      ensures n == old(nextMemberNumber) && nextMemberNumber == n + 1
    {
      n := nextMemberNumber;
      nextMemberNumber := n + 1;
    }

    /** A session that is online for the account leaves its room and is gone. */
    method KickDuplicate(account: string)
      requires Valid() && account in registered
      modifies `chatRooms, `roomByNameEnv, `accountsBySocket, `socketByMember, `socketByAccountName
      ensures Exact() && account !in socketByAccountName
      ensures Users(accountsBySocket) == WithoutAccount(Users(old(accountsBySocket)), account)
      ensures Evict(chatRooms, registered[account]) == Evict(old(chatRooms), registered[account])
      ensures registered[account] == 0 ==> chatRooms == old(chatRooms)
    {
      hide Inv, PlacesExact, NamesExact, Evict;
      if account in socketByAccountName {
        var kicked := socketByAccountName[account];
        NumberOfOnline(State(), kicked);
        OnlyOne(State(), kicked);
        RoomsAreUsed(State());
        LeaveCurrentRoom(kicked);
        EvictTwice(old(chatRooms), registered[account]);
        RemoveAccount(kicked);
      } else {
        NobodyFor(accountsBySocket, socketByMember, socketByAccountName, account);
      }
      assert forall t :: t in Users(accountsBySocket) ==> Users(accountsBySocket)[t].account != account;
      NoNameLeft(accountsBySocket, socketByMember, socketByAccountName, account);
    }

    method HandleAccountLogin(s: string, text: string, env: Environment)
      requires Valid()
      modifies this
      ensures Valid() && State() == AfterLogin(old(State()), s, text, env)
    {
      hide Inv, SessionsExact, PlacesExact, NamesExact, Evict, EnvText, Users, WithoutAccount, Upper;
      LoginKeepsInv(State(), s, text, env);
      SocketHasUser(accountsBySocket, s);
      if s in accountsBySocket {
        return;
      }
      var account := Upper(text);
      if account !in registered {
        return;
      }
      TakeOver(s, account, env);
    }

    /** Kicks the session that is online for the account, if there is one, and takes its place. */
    method TakeOver(s: string, account: string, env: Environment)
      requires Valid() && s !in accountsBySocket && account in registered
      modifies this
      ensures Exact() && issued == old(issued)
      ensures nextMemberNumber == old(nextMemberNumber) + if old(registered)[account] == 0 then 1 else 0
      ensures
        var number := if old(registered)[account] == 0 then old(nextMemberNumber) else old(registered)[account];
        && registered == old(registered)[account := number]
        && Users(accountsBySocket) ==
             WithoutAccount(Users(old(accountsBySocket)), account)[s := User(number, account, EnvText(env))]
        && chatRooms == Evict(old(chatRooms), number)
    {
      hide Inv, SessionsExact, PlacesExact, NamesExact, Evict, EnvText, Users, WithoutAccount;
      FreeNumber(State(), account);
      SocketHasUser(accountsBySocket, s);
      WithoutAccountHas(Users(accountsBySocket), account, s);
      KickDuplicate(account);
      SocketHasUser(accountsBySocket, s);
      var number := registered[account];
      if number == 0 {
        number := AllocateMemberNumber();
        registered := registered[account := number];
      }
      assert registered == old(registered)[account := number];
      Arrive(s, User(number, account, EnvText(env)));
    }

    /** The purge and the insertion at the end of a login. */
    method Arrive(s: string, u: User)
      requires Exact() && s !in accountsBySocket && u.account !in socketByAccountName
      requires u.member !in Present(Users(accountsBySocket))
      modifies `chatRooms, `roomByNameEnv, `accountsBySocket, `socketByMember, `socketByAccountName
      ensures Exact() && Users(accountsBySocket) == Users(old(accountsBySocket))[s := u]
      ensures chatRooms == Evict(old(chatRooms), u.member)
    {
      hide PlacesExact, NamesExact, Evict;
      RemoveMemberFromAllRooms(u.member);
      EvictKeepsFacts(old(chatRooms), u.member, "");
      NotIndexed(accountsBySocket, socketByMember, socketByAccountName, u.member);
      InsertAccount(s, u);
    }

    method HandleAccountCreate(s: string, text: string, env: Environment)
      requires Valid()
      modifies this
      ensures Valid() && State() == AfterCreateAccount(old(State()), s, text, env)
    {
      hide Inv, SessionsExact, PlacesExact, NamesExact, EnvText, Users, Upper;
      CreateAccountKeepsInv(State(), s, text, env);
      SocketHasUser(accountsBySocket, s);
      if s in accountsBySocket {
        return;
      }
      var account := Upper(text);
      if account in registered {
        return;
      }
      Register(s, account, env);
    }

    /** A new account gets the next number and is online. */
    method Register(s: string, account: string, env: Environment)
      requires Valid() && s !in accountsBySocket && account !in registered
      modifies this
      ensures Exact() && issued == old(issued) && chatRooms == old(chatRooms)
      ensures nextMemberNumber == old(nextMemberNumber) + 1
      ensures registered == old(registered)[account := old(nextMemberNumber)]
      ensures Users(accountsBySocket) ==
        Users(old(accountsBySocket))[s := User(old(nextMemberNumber), account, EnvText(env))]
    {
      hide Inv, SessionsExact, PlacesExact, NamesExact, EnvText, Users;
      FreshNumber(State());
      NobodyNew(State(), account);
      NoNameLeft(accountsBySocket, socketByMember, socketByAccountName, account);
      NotIndexed(accountsBySocket, socketByMember, socketByAccountName, nextMemberNumber);
      var number := AllocateMemberNumber();
      registered := registered[account := number];
      InsertAccount(s, User(number, account, EnvText(env)));
    }

    method OnDisconnectCleanup(s: string)
      requires Valid()
      modifies this
      ensures Valid() && State() == AfterDisconnect(old(State()), s)
    {
      hide Inv, SessionsExact, PlacesExact, NamesExact, Evict, Users;
      DisconnectKeepsInv(State(), s);
      SocketHasUser(accountsBySocket, s);
      if s in accountsBySocket {
        LeaveCurrentRoom(s);
        RemoveAccount(s);
      } else {
        RemoveAccount(s);
        UsersWithout(old(accountsBySocket), s);
      }
    }

    // ----- Administration -----

    /** A room is replaced by one with the same key and members. */
    method ReplaceRoom(id: string, room: Room)
      requires Exact() && id in chatRooms && KeyOf(room) == KeyOf(chatRooms[id])
      requires forall x :: x in room.members <==> x in chatRooms[id].members
      modifies `chatRooms
      ensures Exact() && chatRooms == old(chatRooms)[id := room]
    {
      hide NamesExact, PlacesExact, SessionsExact, KeyOf;
      ReplacedNames(chatRooms, roomByNameEnv, id, room);
      assert forall x :: x in room.members <==> IsIn(chatRooms, id, x);
      ReplacedPlaces(accountsBySocket, chatRooms, id, room);
      chatRooms := chatRooms[id := room];
    }

    /** The fields an update sets. */
    static method UpdateRoom(room: Room, q: RoomRequest) returns (r: Room)
      requires ValidUpdate(q)
      ensures r == Updated(room, q)
    {
      hide LimitOf, IsRoomName, IsRestrictive, RolesAsked, FlagAsked;
      var visibility, private := FillRoles(q.visibility, q.private, [ADMIN]);
      var access, locked := FillRoles(q.access, q.locked, [ADMIN, WHITELIST]);
      r := room.(name := q.name, admin := q.admin.value, ban := q.ban.value,
                 whitelist := OrElse(q.whitelist, room.whitelist), limit := LimitOf(q.limit));
      r := r.(visibility := OrElse(visibility, room.visibility), access := OrElse(access, room.access),
              private := OrElse(private, room.private), locked := OrElse(locked, room.locked));
    }

    /** An update may rename the room; then its key in the name index changes with it. */
    method ApplyUpdate(id: string, q: RoomRequest, isObject: bool) returns (reply: Reply)
      requires Valid() && id in chatRooms
      modifies `chatRooms, `roomByNameEnv
      ensures Exact()
      ensures reply == Done <==> isObject && MayUpdate(old(chatRooms), id, q)
      ensures chatRooms ==
        if isObject && MayUpdate(old(chatRooms), id, q) then old(chatRooms)[id := Updated(old(chatRooms)[id], q)]
        else old(chatRooms)
    {
      hide Inv, SessionsExact, PlacesExact, NamesExact, KeyOf, ValidUpdate, Updated, NameTaken, Upper;
      RoomsAreUsed(State());
      if !isObject || !ValidUpdate(q) {
        return InvalidRoomData;
      }
      var room := chatRooms[id];
      if Upper(room.name) != Upper(q.name) && NameTaken(chatRooms, q.name) {
        return RoomAlreadyExist;
      }
      UpdatedName(room, q);
      RenamedKey(room, q);
      if Upper(room.name) != Upper(q.name) {
        UntakenKey(chatRooms, roomByNameEnv, room.env, q.name);
      }
      var oldKey := KeyOf(room);
      var updated := UpdateRoom(room, q);
      ReplacedNames(chatRooms, roomByNameEnv, id, updated);
      assert forall x :: x in updated.members <==> IsIn(chatRooms, id, x);
      ReplacedPlaces(accountsBySocket, chatRooms, id, updated);
      chatRooms := chatRooms[id := updated];
      var newKey := KeyOf(updated);
      if oldKey != newKey {
        roomByNameEnv := (roomByNameEnv - {oldKey})[newKey := id];
      }
      return Done;
    }

    static method SwapMembers(l: seq<int>, a: Action) returns (r: seq<int>)
      requires a.Swap?
      ensures r == Reordered(l, 0, a)
    {
      r := l;
      if a.first.None? || a.second.None? || a.first == a.second {
        return;
      }
      var ti, di := Position(l, a.first.value), Position(l, a.second.value);
      if ti.Some? && di.Some? {
        r := Swapped(l, ti.value, di.value);
      }
    }

    /** What an action on `target` does to the lists and the order of the room. */
    static method EditRoom(room: Room, target: int, a: Action) returns (r: Room)
      requires !a.Update? && !a.Swap?
      ensures r == Managed(room, target, a)
    {
      hide Without, Swapped;
      r := room;
      var idx := Position(room.members, target);
      if idx.Some? {
        var at, len := idx.value, |room.members|;
        match a
        case Ban =>
          if target !in r.ban {
            r := r.(ban := r.ban + [target]);
          }
        case MoveLeft =>
          if at > 0 {
            r := r.(members := Swapped(r.members, at, at - 1));
          }
        case MoveRight =>
          if at + 1 < len {
            r := r.(members := Swapped(r.members, at, at + 1));
          }
        case Shuffle(order) =>
          if multiset(order) == multiset(r.members) {
            r := r.(members := order);
          }
        case Promote =>
          if target !in r.admin {
            r := r.(admin := r.admin + [target]);
          }
        case Demote =>
          if target in r.admin {
            r := r.(admin := Without(r.admin, target));
          }
        case Whitelist =>
          if target !in r.whitelist {
            r := r.(whitelist := r.whitelist + [target]);
          }
        case Unwhitelist =>
          if target in r.whitelist {
            r := r.(whitelist := Without(r.whitelist, target));
          }
        case _ =>
      } else {
        match a
        case Ban =>
          if target !in r.ban {
            r := r.(ban := r.ban + [target]);
          }
        case Unban =>
          if target in r.ban {
            r := r.(ban := Without(r.ban, target));
          }
        case Whitelist =>
          if target !in r.whitelist {
            r := r.(whitelist := r.whitelist + [target]);
          }
        case Unwhitelist =>
          if target in r.whitelist {
            r := r.(whitelist := Without(r.whitelist, target));
          }
        case _ =>
      }
    }

    /** Every action but an update: the lists and the order first, then a banned or kicked target leaves. */
    method ApplyMemberOrOffline(id: string, target: int, a: Action)
      requires Valid() && id in chatRooms && !a.Update?
      modifies `chatRooms, `roomByNameEnv, `accountsBySocket
      ensures Exact() && SameUsers(accountsBySocket, old(accountsBySocket))
      ensures
        var managed := old(chatRooms)[id := Managed(old(chatRooms)[id], target, a)];
        chatRooms == if (a.Ban? || a.Kick?) && target in old(chatRooms)[id].members then Evict(managed, target)
                     else managed
    {
      hide Inv, SessionsExact, PlacesExact, NamesExact, KeyOf, Managed, Reordered, Listed, Evict;
      hide RoomsOk, RoomOk, Users;
      RoomIsOk(State(), id);
      InvHasRooms(State());
      var room := chatRooms[id];
      ManagedKeepsOk(room, target, a);
      ManagedKey(room, target, a);
      ManagedRoomsOk(chatRooms, Present(Users(accountsBySocket)), issued, id, Managed(room, target, a)) by {
        hide Upper;
      }
      var edited;
      if a.Swap? {
        var order := SwapMembers(room.members, a);
        SwapIsManaged(room, target, a);
        edited := room.(members := order);
      } else {
        edited := EditRoom(room, target, a);
      }
      ReplaceRoom(id, edited);
      if (a.Ban? || a.Kick?) && target in room.members {
        LeaveRoomInner(id, target);
      }
    }

    method HandleChatRoomAdmin(s: string, target: int, a: Action)
      requires Valid()
      modifies this
      ensures Valid() && State() == AfterAdmin(old(State()), s, target, a)
    {
      hide Inv, SessionsExact, PlacesExact, NamesExact, Users, Evict, Managed, Updated, MayUpdate, RoomOf, RoomsOk;
      AdminKeepsInv(State(), s, target, a);
      SocketHasUser(accountsBySocket, s);
      if s !in accountsBySocket {
        return;
      }
      var acc := accountsBySocket[s];
      InvHasRooms(State());
      PlaceIsRoomOf(accountsBySocket, chatRooms, s, Present(Users(accountsBySocket)), issued);
      if acc.roomId.None? {
        return;
      }
      var id := acc.roomId.value;
      if acc.user.member !in chatRooms[id].admin {
        return;
      }
      if acc.user.member == target && !AllowedOnSelf(a) {
        return;
      }
      if a.Update? {
        var reply := ApplyUpdate(id, a.request, a.isObject);
      } else {
        ApplyMemberOrOffline(id, target, a);
      }
    }
  }

  lemma RenamedKey(r: Room, q: RoomRequest)
    requires ValidUpdate(q)
    ensures KeyOf(Updated(r, q)) == RoomKey(r.env, q.name)
    ensures Upper(r.name) == Upper(q.name) ==> KeyOf(Updated(r, q)) == KeyOf(r)
  {
    hide Upper;
  }

  lemma ManagedKey(r: Room, target: int, a: Action)
    ensures KeyOf(Managed(r, target, a)) == KeyOf(r)
  {
    hide Upper, Reordered;
  }

  lemma SwapIsManaged(r: Room, target: int, a: Action)
    requires a.Swap?
    ensures Managed(r, target, a) == r.(members := Reordered(r.members, 0, a))
  {
  }

  lemma DoneIsOutside(h: Hall, s: string, name: string)
    requires JoinReply(h, s, name) == Done
    ensures
      && s in h.users && RoomNamed(h.rooms, h.users[s].env, name).Some?
      && h.users[s].member !in h.rooms[RoomNamed(h.rooms, h.users[s].env, name).value].members
  {
  }

  lemma SocketHasUser(accounts: Accounts, s: string)
    ensures s in accounts <==> s in Users(accounts)
    ensures s in accounts ==> Users(accounts)[s] == accounts[s].user
  {
  }

  lemma UsersWithout(accounts: Accounts, s: string)
    requires s !in accounts
    ensures Users(accounts) - {s} == Users(accounts)
  {
  }

  lemma AbsentPlaces(accounts: Accounts, rooms: RoomTable, m: int)
    requires PlacesExact(accounts, rooms) && forall s :: s in accounts ==> accounts[s].user.member != m
    ensures PlacesExact(accounts, Evict(rooms, m))
  {
    hide IsIn, Evict;
    forall s | s in accounts
      ensures forall r :: IsIn(Evict(rooms, m), r, accounts[s].user.member) <==> IsIn(rooms, r, accounts[s].user.member)
    {
      EvictMovesOne(rooms, m, accounts[s].user.member);
    }
  }

  lemma NumberOfOnline(h: Hall, s: string)
    requires Inv(h)
    ensures s in h.users ==>
      var u := h.users[s];
      u.account in h.registered && u.member == h.registered[u.account] != 0
  {
  }

  lemma OnlyOne(h: Hall, s: string)
    requires Inv(h) && s in h.users
    ensures WithoutAccount(h.users, h.users[s].account) == h.users - {s}
  {
    hide RoomsOk, RegistryOk;
  }

  lemma EvictTwice(rooms: RoomTable, m: int)
    ensures Evict(Evict(rooms, m), m) == Evict(rooms, m)
  {
    hide Without;
    EvictNobody(Evict(rooms, m), m);
  }

  lemma NobodyFor(accounts: Accounts, byMember: map<int, string>, byName: map<string, string>, account: string)
    requires SessionsExact(accounts, byMember, byName) && account !in byName
    ensures WithoutAccount(Users(accounts), account) == Users(accounts)
  {
  }

  lemma NoNameLeft(accounts: Accounts, byMember: map<int, string>, byName: map<string, string>, account: string)
    requires SessionsExact(accounts, byMember, byName)
    requires forall s :: s in Users(accounts) ==> Users(accounts)[s].account != account
    ensures account !in byName
  {
    assert forall s :: s in accounts ==> Users(accounts)[s] == accounts[s].user;
  }

  lemma NotIndexed(accounts: Accounts, byMember: map<int, string>, byName: map<string, string>, m: int)
    requires SessionsExact(accounts, byMember, byName) && m !in Present(Users(accounts))
    ensures m !in byMember
  {
    assert byMember.Keys <= Present(Users(accounts)) by {
      forall k | k in byMember.Keys ensures k in Present(Users(accounts)) {
        assert Users(accounts)[byMember[k]].member == k;
      }
    }
  }

  /** The number an account logs in with is nobody else's. */
  lemma FreeNumber(h: Hall, account: string)
    requires Inv(h) && account in h.registered
    ensures
      var number := if h.registered[account] == 0 then h.next else h.registered[account];
      number !in Present(WithoutAccount(h.users, account))
  {
    hide RoomsOk, Upper;
  }

  lemma FreshNumber(h: Hall)
    requires Inv(h)
    ensures h.next !in Present(h.users) && forall q :: !IsIn(h.rooms, q, h.next)
  {
    hide Upper, RoomOk;
  }

  lemma NobodyNew(h: Hall, account: string)
    requires Inv(h) && account !in h.registered
    ensures forall s :: s in h.users ==> h.users[s].account != account
  {
    hide RoomsOk, Upper;
  }

  lemma EnteredKey(r: Room, m: int)
    ensures KeyOf(Entered(r, m)) == KeyOf(r)
  {
  }

  lemma CreatedShape(q: RoomRequest, env: string, m: int)
    ensures Created(q, env, m).members == [] && KeyOf(Entered(Created(q, env, m), m)) == RoomKey(env, q.name)
  {
  }

  lemma UsersHaveColonFree(h: Hall, s: string)
    requires Inv(h) && s in h.users
    ensures ':' !in h.users[s].env
  {
  }

  lemma EvictKeepsFacts(rooms: RoomTable, m: int, name: string)
    ensures forall q :: !IsIn(Evict(rooms, m), q, m)
    ensures forall r :: r in Evict(rooms, m) ==> r in rooms && Evict(rooms, m)[r].env == rooms[r].env
    ensures NameTaken(Evict(rooms, m), name) ==> NameTaken(rooms, name)
  {
    hide Upper, Without;
  }

  lemma AllIsOpen()
    ensures !IsRestrictive([ALL])
  {
  }

  lemma OnlyRoomOf(rooms: RoomTable, here: set<int>, issued: set<string>, r: string, m: int)
    requires RoomsOk(rooms, here, issued) && IsIn(rooms, r, m)
    ensures m in here && (forall q :: q in rooms && q != r ==> m !in rooms[q].members)
    ensures forall q :: q in rooms ==> rooms[q].members != []
  {
    hide RoomOk, Upper;
  }

  lemma EmptiedGone(rooms: RoomTable, left: RoomTable, emptied: set<string>, m: int)
    requires left.Keys == rooms.Keys && forall r :: r in rooms ==> left[r] == Left(rooms[r], m)
    requires forall r :: r in rooms ==> (r in emptied <==> Left(rooms[r], m).members == [])
    ensures left - emptied == Evict(rooms, m)
  {
    hide Left;
  }

  lemma LeftKeepsName(r: Room, m: int)
    ensures KeyOf(Left(r, m)) == KeyOf(r) && Left(r, m).members == Without(r.members, m)
  {
  }

  lemma InvHasRooms(h: Hall)
    requires Inv(h)
    ensures RoomsOk(h.rooms, Present(h.users), h.issued)
  {
  }

  lemma RoomsAreUsed(h: Hall)
    requires Inv(h)
    ensures forall r :: r in h.rooms ==> h.rooms[r].members != [] && ':' !in h.rooms[r].env && r in h.issued
  {
    hide Upper, NoDuplicates, IsRoomName;
  }
}
