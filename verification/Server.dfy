/** The server's shared state as its users see it: who is online, and which rooms there are with whom in
    them. It has none of the redundant indexes and back-pointers of `src/state/world.rs`; the handlers
    that keep those are proved against these steps. */
module Server {
  import opened Names
  import opened Numbers
  import opened Options
  import opened Rooms

  /** Where a client comes from: the two known sites, or a random number below 10^12. */
  datatype Environment = Prod | Dev | Local(n: nat)

  function EnvText(e: Environment): string {
    match e
    case Prod => "PROD"
    case Dev => "DEV"
    case Local(n) => Decimal(n)
  }

  lemma EnvHasNoColon(e: Environment)
    ensures ':' !in EnvText(e)
  {
    if e.Local? {
      DecimalHasNoColon(e.n);
    }
  }

  datatype User = User(member: int, account: string, env: string)

  /** `users` by socket, `rooms` by room id, every id ever given to a room, the member number of each
      registered account (0 when it has none yet), and the next number. */
  datatype Hall = Hall(users: map<string, User>, rooms: map<string, Room>, issued: set<string>,
                       registered: map<string, int>, next: int)

  function Present(users: map<string, User>): set<int> {
    set s | s in users :: users[s].member
  }

  function Left(r: Room, m: int): Room {
    r.(members := Without(r.members, m))
  }

  /** The rooms once `m` is in none of them; a room left empty is gone. */
  function Evict(rooms: map<string, Room>, m: int): map<string, Room> {
    map r | r in rooms && Left(rooms[r], m).members != [] :: Left(rooms[r], m)
  }

  /** The room `m` is in. */
  ghost function RoomOf(rooms: map<string, Room>, m: int): (o: Option<string>)
    ensures o.Some? ==> o.value in rooms && m in rooms[o.value].members
    ensures o.None? ==> forall r :: r in rooms ==> m !in rooms[r].members
  {
    if exists r :: r in rooms && m in rooms[r].members
    then var r :| r in rooms && m in rooms[r].members; Some(r)
    else None
  }

  predicate IsNamed(r: Room, env: string, name: string) {
    r.env == env && Upper(r.name) == Upper(name)
  }

  /** The room of that name in that environment, found by looking at them all. */
  ghost function RoomNamed(rooms: map<string, Room>, env: string, name: string): (o: Option<string>)
    ensures o.Some? ==> o.value in rooms && IsNamed(rooms[o.value], env, name)
    ensures o.None? ==> forall r :: r in rooms ==> !IsNamed(rooms[r], env, name)
  {
    if exists r :: r in rooms && IsNamed(rooms[r], env, name)
    then var r :| r in rooms && IsNamed(rooms[r], env, name); Some(r)
    else None
  }

  /** Room names are unique in all environments, whatever their case. */
  predicate NameTaken(rooms: map<string, Room>, name: string) {
    exists r :: r in rooms && Upper(rooms[r].name) == Upper(name)
  }

  function Entered(r: Room, m: int): Room {
    r.(members := r.members + [m])
  }

  /** Whoever was online for the account is gone. */
  function WithoutAccount(users: map<string, User>, account: string): map<string, User> {
    map s | s in users && users[s].account != account :: users[s]
  }

  datatype Op =
    | Login(socket: string, account: string, env: Environment)
    | CreateAccount(socket: string, account: string, env: Environment)
    | Disconnect(socket: string)
    | CreateRoom(socket: string, id: string, request: RoomRequest)
    | JoinRoom(socket: string, name: string)
    | LeaveRoom(socket: string)
    | Admin(socket: string, target: int, action: Action)

  /** A login with the right password, on a socket without a session. */
  function AfterLogin(h: Hall, s: string, text: string, env: Environment): Hall {
    var account := Upper(text);
    if s in h.users || account !in h.registered then h
    else
      var missing := h.registered[account] == 0;
      var number := if missing then h.next else h.registered[account];
      h.(users := WithoutAccount(h.users, account)[s := User(number, account, EnvText(env))],
         rooms := Evict(h.rooms, number),
         registered := h.registered[account := number],
         next := if missing then h.next + 1 else h.next)
  }

  function AfterCreateAccount(h: Hall, s: string, text: string, env: Environment): Hall {
    var account := Upper(text);
    if s in h.users || account in h.registered then h
    else h.(users := h.users[s := User(h.next, account, EnvText(env))],
            registered := h.registered[account := h.next],
            next := h.next + 1)
  }

  function AfterDisconnect(h: Hall, s: string): Hall {
    if s in h.users then h.(users := h.users - {s}, rooms := Evict(h.rooms, h.users[s].member)) else h
  }

  datatype Reply = Done | AccountError | InvalidRoomData | RoomAlreadyExist | CannotFindRoom | RoomFull
                 | RoomBanned | RoomLocked | AlreadyInRoom

  function CreateReply(h: Hall, s: string, q: RoomRequest): Reply {
    if !ValidCreate(q) then InvalidRoomData
    else if s !in h.users then AccountError
    else if NameTaken(h.rooms, q.name) then RoomAlreadyExist
    else Done
  }

  /** A new room takes its creator out of the room before. */
  function AfterCreateRoom(h: Hall, s: string, id: string, q: RoomRequest): Hall {
    if CreateReply(h, s, q) != Done || id in h.issued then h
    else
      var me := h.users[s];
      h.(rooms := Evict(h.rooms, me.member)[id := Entered(Created(q, me.env, me.member), me.member)],
         issued := h.issued + {id})
  }

  ghost function JoinReply(h: Hall, s: string, name: string): Reply {
    if name == "" then InvalidRoomData
    else if s !in h.users then AccountError
    else
      var me := h.users[s];
      var r := RoomNamed(h.rooms, me.env, name);
      if r.None? then CannotFindRoom
      else
        var room := h.rooms[r.value];
        if IsFull(room) then RoomFull
        else if me.member in room.ban then RoomBanned
        else if !HasAnyRole(me.member, room, room.access) then RoomLocked
        else if me.member in room.members then AlreadyInRoom
        else Done
  }

  ghost function AfterJoinRoom(h: Hall, s: string, name: string): Hall {
    if JoinReply(h, s, name) != Done then h
    else
      var me := h.users[s];
      var r := RoomNamed(h.rooms, me.env, name).value;
      h.(rooms := Evict(h.rooms, me.member)[r := Entered(h.rooms[r], me.member)])
  }

  function AfterLeaveRoom(h: Hall, s: string): Hall {
    if s in h.users then h.(rooms := Evict(h.rooms, h.users[s].member)) else h
  }

  /** The room `s` may administer for an action on `target`. */
  ghost function Administers(h: Hall, s: string, target: int, a: Action): (o: Option<string>)
    ensures o.Some? ==> s in h.users && o.value in h.rooms && h.users[s].member in h.rooms[o.value].members
  {
    if s !in h.users then None
    else
      var me := h.users[s].member;
      var r := RoomOf(h.rooms, me);
      if r.None? || me !in h.rooms[r.value].admin || (me == target && !AllowedOnSelf(a)) then None else r
  }

  predicate MayUpdate(rooms: map<string, Room>, r: string, q: RoomRequest)
    requires r in rooms
  {
    ValidUpdate(q) && (Upper(rooms[r].name) == Upper(q.name) || !NameTaken(rooms, q.name))
  }

  ghost function AfterAdmin(h: Hall, s: string, target: int, a: Action): Hall {
    var o := Administers(h, s, target, a);
    if o.None? then h
    else
      var r := o.value;
      if a.Update? then
        if a.isObject && MayUpdate(h.rooms, r, a.request)
        then h.(rooms := h.rooms[r := Updated(h.rooms[r], a.request)])
        else h
      else
        var managed := h.rooms[r := Managed(h.rooms[r], target, a)];
        if (a.Ban? || a.Kick?) && target in h.rooms[r].members then h.(rooms := Evict(managed, target))
        else h.(rooms := managed)
  }

  ghost function Step(h: Hall, op: Op): Hall {
    match op
    case Login(s, account, env) => AfterLogin(h, s, account, env)
    case CreateAccount(s, account, env) => AfterCreateAccount(h, s, account, env)
    case Disconnect(s) => AfterDisconnect(h, s)
    case CreateRoom(s, id, q) => AfterCreateRoom(h, s, id, q)
    case JoinRoom(s, name) => AfterJoinRoom(h, s, name)
    case LeaveRoom(s) => AfterLeaveRoom(h, s)
    case Admin(s, target, a) => AfterAdmin(h, s, target, a)
  }

  ghost function Run(h: Hall, ops: seq<Op>): Hall
    decreases |ops|
  {
    if ops == [] then h else Step(Run(h, ops[..|ops| - 1]), ops[|ops| - 1])
  }

  // ----- What every step keeps -----

  /** Every account has its own number, given out before `next`, and its name is in upper case, as the names of all
      accounts are that this server creates. */
  ghost predicate RegistryOk(registered: map<string, int>, next: int) {
    && next >= 1
    && (forall a :: a in registered ==> registered[a] < next && Upper(a) == a)
    && (forall a, b :: a in registered && b in registered && a != b && registered[a] == registered[b] ==>
          registered[a] == 0)
  }

  /** Everybody online is registered, no account is online twice. */
  ghost predicate UsersOk(users: map<string, User>, registered: map<string, int>) {
    && (forall s :: s in users ==>
          && users[s].account in registered && users[s].member == registered[users[s].account] != 0
          && ':' !in users[s].env)
    && (forall s, t :: s in users && t in users && s != t ==> users[s].account != users[t].account)
  }

  /** No room is empty, nobody is in two rooms, everybody in a room is one of `here`, and room names are
      unique whatever their case. */
  ghost predicate RoomsOk(rooms: map<string, Room>, here: set<int>, issued: set<string>) {
    && (forall r :: r in rooms ==> RoomOk(rooms[r]) && rooms[r].members != [] && r in issued)
    && (forall r, m :: r in rooms && m in rooms[r].members ==> m in here)
    && (forall q, r, m :: q in rooms && r in rooms && m in rooms[q].members && m in rooms[r].members ==> q == r)
    && (forall q, r :: q in rooms && r in rooms && Upper(rooms[q].name) == Upper(rooms[r].name) ==> q == r)
  }

  ghost predicate Inv(h: Hall) {
    && RegistryOk(h.registered, h.next) && UsersOk(h.users, h.registered)
    && RoomsOk(h.rooms, Present(h.users), h.issued)
  }

  lemma EvictKeepsOk(rooms: map<string, Room>, here: set<int>, issued: set<string>, m: int)
    requires RoomsOk(rooms, here, issued)
    ensures RoomsOk(Evict(rooms, m), here - {m}, issued)
  {
    hide Upper, IsRoomName, Without, IsRestrictive, NoDuplicates;
    forall r | r in rooms ensures RoomOk(Left(rooms[r], m)) {
      LeftKeepsOk(rooms[r], m);
    }
  }

  lemma LeftKeepsOk(r: Room, m: int)
    requires RoomOk(r)
    ensures RoomOk(Left(r, m))
  {
    WithoutKeepsDistinct(r.members, m);
  }

  lemma EnteredKeepsOk(rooms: map<string, Room>, here: set<int>, issued: set<string>, r: string, room: Room, m: int)
    requires RoomsOk(rooms, here, issued) && m in here
    requires forall q :: q in rooms ==> m !in rooms[q].members
    requires RoomOk(Entered(room, m)) && (forall x :: x in room.members ==> r in rooms && x in rooms[r].members)
    requires forall q :: q in rooms && q != r ==> Upper(rooms[q].name) != Upper(room.name)
    ensures RoomsOk(rooms[r := Entered(room, m)], here, issued + {r})
  {
    hide Upper, RoomOk;
  }

  /** Replacing a room by one of the same name and members changes nothing of this. */
  lemma ManagedRoomsOk(rooms: map<string, Room>, here: set<int>, issued: set<string>, r: string, room: Room)
    requires RoomsOk(rooms, here, issued) && r in rooms && RoomOk(room)
    requires forall x :: x in room.members <==> x in rooms[r].members
    requires Upper(room.name) == Upper(rooms[r].name) || !NameTaken(rooms, room.name)
    ensures RoomsOk(rooms[r := room], here, issued)
  {
    hide Upper, RoomOk;
    var m := rooms[r].members[0];
    assert m in room.members;
  }

  lemma MoreHere(rooms: map<string, Room>, here: set<int>, more: set<int>, issued: set<string>)
    requires RoomsOk(rooms, here, issued) && here <= more
    ensures RoomsOk(rooms, more, issued)
  {
    hide Upper, RoomOk;
  }

  /** Giving an account its first number, the next one. */
  lemma NumberingKeepsOk(registered: map<string, int>, next: int, users: map<string, User>, account: string)
    requires RegistryOk(registered, next) && UsersOk(users, registered) && Upper(account) == account
    requires account in registered ==> registered[account] == 0
    ensures RegistryOk(registered[account := next], next + 1) && UsersOk(users, registered[account := next])
  {
    hide Upper;
  }

  /** Somebody comes online for an account that nobody is online for. */
  lemma ArrivalKeepsOk(users: map<string, User>, registered: map<string, int>, s: string, u: User)
    requires UsersOk(users, registered) && s !in users && ':' !in u.env
    requires u.account in registered && u.member == registered[u.account] != 0
    requires forall t :: t in users ==> users[t].account != u.account
    ensures UsersOk(users[s := u], registered)
    ensures Present(users) <= Present(users[s := u])
  {
    var users' := users[s := u];
    forall m | m in Present(users) ensures m in Present(users') {
      var t :| t in users && users[t].member == m;
      assert users'[t] == users[t];
    }
  }

  lemma WithoutAccountKeepsOk(users: map<string, User>, registered: map<string, int>, account: string)
    requires UsersOk(users, registered) && account in registered
    ensures UsersOk(WithoutAccount(users, account), registered)
    ensures Present(users) - {registered[account]} <= Present(WithoutAccount(users, account))
  {
    var users' := WithoutAccount(users, account);
    forall m | m in Present(users) - {registered[account]} ensures m in Present(users') {
      var t :| t in users && users[t].member == m;
      assert t in users';
    }
  }

  lemma LoginKeepsInv(h: Hall, s: string, text: string, env: Environment)
    requires Inv(h)
    ensures Inv(AfterLogin(h, s, text, env))
  {
    hide RoomsOk, Evict, EnvText, Upper, UsersOk, RegistryOk, WithoutAccount, Present;
    var h' := AfterLogin(h, s, text, env);
    var account := Upper(text);
    if s !in h.users && account in h.registered {
      UpperTwice(text);
      EnvHasNoColon(env);
      var number := h'.registered[account];
      if h.registered[account] == 0 {
        NumberingKeepsOk(h.registered, h.next, h.users, account);
        assert number != 0 by {
          assert RegistryOk(h.registered, h.next);
          NextIsPositive(h);
        }
      } else {
        assert h.registered[account := number] == h.registered;
      }
      WithoutAccountKeepsOk(h.users, h'.registered, account);
      WithoutAccountHas(h.users, account, s);
      ArrivalKeepsOk(WithoutAccount(h.users, account), h'.registered, s, User(number, account, EnvText(env)));
      EvictKeepsOk(h.rooms, Present(h.users), h.issued, number);
      MoreHere(Evict(h.rooms, number), Present(h.users) - {number}, Present(h'.users), h.issued);
    }
  }

  lemma NextIsPositive(h: Hall)
    requires Inv(h)
    ensures h.next >= 1
  {
  }

  lemma WithoutAccountHas(users: map<string, User>, account: string, s: string)
    requires s !in users
    ensures s !in WithoutAccount(users, account)
    ensures forall t :: t in WithoutAccount(users, account) ==> WithoutAccount(users, account)[t].account != account
  {
  }

  lemma CreateAccountKeepsInv(h: Hall, s: string, text: string, env: Environment)
    requires Inv(h)
    ensures Inv(AfterCreateAccount(h, s, text, env))
  {
    hide RoomsOk, EnvText, Upper, RegistryOk, Present;
    var h' := AfterCreateAccount(h, s, text, env);
    var account := Upper(text);
    if s !in h.users && account !in h.registered {
      UpperTwice(text);
      EnvHasNoColon(env);
      NextIsPositive(h);
      NumberingKeepsOk(h.registered, h.next, h.users, account);
      assert forall t :: t in h.users ==> h.users[t].account != account;
      hide UsersOk;
      ArrivalKeepsOk(h.users, h'.registered, s, User(h.next, account, EnvText(env)));
      MoreHere(h.rooms, Present(h.users), Present(h'.users), h.issued);
    }
  }

  lemma DisconnectKeepsInv(h: Hall, s: string)
    requires Inv(h)
    ensures Inv(AfterDisconnect(h, s)) && Inv(AfterLeaveRoom(h, s))
  {
    hide RoomsOk, Evict;
    if s in h.users {
      var m := h.users[s].member;
      var h' := AfterDisconnect(h, s);
      EvictKeepsOk(h.rooms, Present(h.users), h.issued, m);
      forall x | x in Present(h.users) - {m} ensures x in Present(h'.users) {
        var t :| t in h.users && h.users[t].member == x;
        assert h'.users[t] == h.users[t];
      }
      MoreHere(Evict(h.rooms, m), Present(h.users) - {m}, Present(h'.users), h.issued);
      MoreHere(Evict(h.rooms, m), Present(h.users) - {m}, Present(h.users), h.issued);
    }
  }

  lemma CreateRoomKeepsInv(h: Hall, s: string, id: string, q: RoomRequest)
    requires Inv(h)
    ensures Inv(AfterCreateRoom(h, s, id, q))
  {
    if CreateReply(h, s, q) == Done && id !in h.issued {
      var me := h.users[s];
      RequestsKeepRoomsOk(NewRoom("", "", 0), q, me.env, me.member);
      EvictKeepsOk(h.rooms, Present(h.users), h.issued, me.member);
      MoreHere(Evict(h.rooms, me.member), Present(h.users) - {me.member}, Present(h.users), h.issued);
      EvictedNowhere(h.rooms, me.member);
      hide Upper, RoomOk, ValidCreate, LimitOf, RolesAsked, RoomsOk, UsersOk, RegistryOk;
      var room := Created(q, me.env, me.member);
      EnteredKeepsOk(Evict(h.rooms, me.member), Present(h.users), h.issued, id, room, me.member);
    }
  }

  lemma EvictedNowhere(rooms: map<string, Room>, m: int)
    ensures forall r :: r in Evict(rooms, m) ==> m !in Evict(rooms, m)[r].members
  {
  }

  lemma EnteringKeepsOk(r: Room, m: int)
    requires RoomOk(r) && !IsFull(r) && m !in r.members
    ensures RoomOk(Entered(r, m))
  {
    hide IsRoomName, IsRestrictive;
  }

  lemma JoinRoomKeepsInv(h: Hall, s: string, name: string)
    requires Inv(h)
    ensures Inv(AfterJoinRoom(h, s, name))
  {
    hide Upper, HasAnyRole, RoomNamed, RoomOk, RegistryOk, Evict;
    if JoinReply(h, s, name) == Done {
      var me := h.users[s];
      var r := RoomNamed(h.rooms, me.env, name).value;
      var room := h.rooms[r];
      EnteringKeepsOk(room, me.member);
      StaysWithout(h.rooms, r, me.member);
      EvictKeepsOk(h.rooms, Present(h.users), h.issued, me.member);
      MoreHere(Evict(h.rooms, me.member), Present(h.users) - {me.member}, Present(h.users), h.issued);
      EvictedNowhere(h.rooms, me.member);
      assert h.issued + {r} == h.issued;
      EnteredKeepsOk(Evict(h.rooms, me.member), Present(h.users), h.issued, r, room, me.member);
    }
  }

  /** A room that does not have `m` is the same once `m` is evicted. */
  lemma StaysWithout(rooms: map<string, Room>, r: string, m: int)
    requires r in rooms && m !in rooms[r].members && rooms[r].members != []
    ensures r in Evict(rooms, m) && Evict(rooms, m)[r] == rooms[r]
    ensures forall q :: q in Evict(rooms, m) ==> q in rooms && Evict(rooms, m)[q].name == rooms[q].name
  {
    hide Without;
    assert Left(rooms[r], m) == rooms[r];
  }

  lemma AdminKeepsInv(h: Hall, s: string, target: int, a: Action)
    requires Inv(h)
    ensures Inv(AfterAdmin(h, s, target, a))
  {
    hide Upper, UsersOk, RegistryOk, Managed, Updated, ValidUpdate, Evict;
    var o := Administers(h, s, target, a);
    if o.Some? {
      var r := o.value;
      var room := h.rooms[r];
      var here := Present(h.users);
      if a.Update? {
        if a.isObject && MayUpdate(h.rooms, r, a.request) {
          RequestsKeepRoomsOk(room, a.request, "", 0);
          UpdatedName(room, a.request);
          ManagedRoomsOk(h.rooms, here, h.issued, r, Updated(room, a.request));
        }
      } else {
        ManagedKeepsOk(room, target, a);
        ManagedRoomsOk(h.rooms, here, h.issued, r, Managed(room, target, a));
        var managed := h.rooms[r := Managed(room, target, a)];
        EvictKeepsOk(managed, here, h.issued, target);
        MoreHere(Evict(managed, target), here - {target}, here, h.issued);
      }
    }
  }

  lemma UpdatedName(r: Room, q: RoomRequest)
    requires ValidUpdate(q)
    ensures Updated(r, q).name == q.name && Updated(r, q).members == r.members && Updated(r, q).env == r.env
  {
  }

  lemma StepKeepsInv(h: Hall, op: Op)
    requires Inv(h)
    ensures Inv(Step(h, op))
  {
    hide Inv, AfterLogin, AfterCreateAccount, AfterDisconnect;
    hide AfterCreateRoom, AfterJoinRoom, AfterLeaveRoom, AfterAdmin;
    match op
    case Login(s, account, env) => LoginKeepsInv(h, s, account, env);
    case CreateAccount(s, account, env) => CreateAccountKeepsInv(h, s, account, env);
    case Disconnect(s) => DisconnectKeepsInv(h, s);
    case CreateRoom(s, id, q) => CreateRoomKeepsInv(h, s, id, q);
    case JoinRoom(s, name) => JoinRoomKeepsInv(h, s, name);
    case LeaveRoom(s) => DisconnectKeepsInv(h, s);
    case Admin(s, target, a) => AdminKeepsInv(h, s, target, a);
  }

  lemma {:induction false} RunKeepsInv(h: Hall, ops: seq<Op>)
    requires Inv(h)
    ensures Inv(Run(h, ops))
    decreases |ops|
  {
    if ops != [] {
      RunKeepsInv(h, ops[..|ops| - 1]);
      hide Inv, Step;
      StepKeepsInv(Run(h, ops[..|ops| - 1]), ops[|ops| - 1]);
    }
  }

  // ----- Who moves -----

  /** The members an operation may move from one room to another. */
  ghost function Movers(h: Hall, op: Op): set<int> {
    match op
    case Login(s, text, _) =>
      if Upper(text) in h.registered && h.registered[Upper(text)] != 0 then {h.registered[Upper(text)]} else {}
    case CreateAccount(_, _, _) => {}
    case Disconnect(s) => if s in h.users then {h.users[s].member} else {}
    case CreateRoom(s, _, q) => if CreateReply(h, s, q) == Done then {h.users[s].member} else {}
    case JoinRoom(s, name) => if JoinReply(h, s, name) == Done then {h.users[s].member} else {}
    case LeaveRoom(s) => if s in h.users then {h.users[s].member} else {}
    case Admin(s, target, a) => if (a.Ban? || a.Kick?) && Administers(h, s, target, a).Some? then {target} else {}
  }

  predicate IsIn(rooms: map<string, Room>, r: string, x: int) {
    r in rooms && x in rooms[r].members
  }

  lemma EvictMovesOne(rooms: map<string, Room>, m: int, x: int)
    ensures forall r :: IsIn(Evict(rooms, m), r, x) <==> IsIn(rooms, r, x) && x != m
  {
    hide Without;
    forall r | IsIn(rooms, r, x) && x != m ensures r in Evict(rooms, m) {
      assert x in Left(rooms[r], m).members;
    }
  }

  lemma ReplaceMovesNobody(rooms: map<string, Room>, r: string, room: Room, x: int)
    requires IsIn(rooms, r, x) <==> x in room.members
    ensures forall q :: IsIn(rooms[r := room], q, x) <==> IsIn(rooms, q, x)
  {
  }

  lemma LoginMovesOne(h: Hall, s: string, text: string, env: Environment, x: int)
    requires Inv(h) && x !in Movers(h, Login(s, text, env))
    ensures forall r :: IsIn(AfterLogin(h, s, text, env).rooms, r, x) <==> IsIn(h.rooms, r, x)
  {
    NobodyUnnumbered(h, x);
    hide Inv, Evict, Upper, EnvText, WithoutAccount;
    var h' := AfterLogin(h, s, text, env);
    if s !in h.users && Upper(text) in h.registered {
      EvictMovesOne(h.rooms, h'.registered[Upper(text)], x);
    }
  }

  lemma RoomOpMovesOne(h: Hall, op: Op, x: int)
    requires Inv(h) && x !in Movers(h, op) && (op.CreateRoom? || op.JoinRoom?)
    ensures forall r :: IsIn(Step(h, op).rooms, r, x) <==> IsIn(h.rooms, r, x)
  {
    NewIdsAreNew(h);
    hide Inv, Evict, Upper, NameTaken, ValidCreate, Created, HasAnyRole, IsFull;
    if op.socket in h.users {
      var m := h.users[op.socket].member;
      EvictMovesOne(h.rooms, m, x);
      if op.CreateRoom? && CreateReply(h, op.socket, op.request) == Done && op.id !in h.issued {
        CreatedIsEmpty(op.request, h.users[op.socket].env, m);
        assert !IsIn(Evict(h.rooms, m), op.id, x);
        ReplaceMovesNobody(Evict(h.rooms, m), op.id, Entered(Created(op.request, h.users[op.socket].env, m), m), x);
      } else if op.JoinRoom? && JoinReply(h, op.socket, op.name) == Done {
        var r := RoomNamed(h.rooms, h.users[op.socket].env, op.name).value;
        ReplaceMovesNobody(Evict(h.rooms, m), r, Entered(h.rooms[r], m), x);
      }
    }
  }

  lemma CreatedIsEmpty(q: RoomRequest, env: string, m: int)
    ensures Created(q, env, m).members == []
  {
  }

  /** The room's access names everybody, or a list of the room that has `m`. */
  predicate LetsIn(room: Room, m: int) {
    || "All" in room.access
    || ("Admin" in room.access && m in room.admin)
    || ("Whitelist" in room.access && m in room.whitelist)
  }

  lemma RolesLetIn(room: Room, m: int)
    ensures HasAnyRole(m, room, room.access) <==> LetsIn(room, m)
  {
  }

  /** A join succeeds exactly when the room of that name in the client's environment has space, does not ban
      the member, gives the member one of its access roles, and is not the one the member is in. Then the
      member comes last in that room and is in no other. */
  lemma JoinLands(h: Hall, s: string, name: string, r: string)
    requires Inv(h) && s in h.users && name != "" && r in h.rooms
    requires h.rooms[r].env == h.users[s].env && Upper(h.rooms[r].name) == Upper(name)
    ensures
      var me, room := h.users[s].member, h.rooms[r];
      JoinReply(h, s, name) == Done <==>
        |room.members| < room.limit && me !in room.ban && LetsIn(room, me) && me !in room.members
    ensures
      var me, room := h.users[s].member, h.rooms[r];
      && (JoinReply(h, s, name) == RoomFull <==> |room.members| >= room.limit)
      && (JoinReply(h, s, name) == RoomBanned <==> |room.members| < room.limit && me in room.ban)
      && (JoinReply(h, s, name) == RoomLocked <==>
            |room.members| < room.limit && me !in room.ban && !LetsIn(room, me))
    ensures JoinReply(h, s, name) == Done ==>
      var me, h' := h.users[s].member, AfterJoinRoom(h, s, name);
      && (forall q :: IsIn(h'.rooms, q, me) <==> q == r)
      && h'.rooms[r] == h.rooms[r].(members := h.rooms[r].members + [me])
  {
    hide Upper, RoomOk, HasAnyRole, LetsIn, Evict, UsersOk, RegistryOk;
    var me := h.users[s].member;
    RolesLetIn(h.rooms[r], me);
    SameNameSameRoom(h, r, RoomNamed(h.rooms, h.users[s].env, name), h.users[s].env, name);
    EvictMovesOne(h.rooms, me, me);
    if JoinReply(h, s, name) == Done {
      OnlyWhereEntered(Evict(h.rooms, me), AfterJoinRoom(h, s, name).rooms, r, h.rooms[r], me);
    }
  }

  /** Nobody enters a room that is there but by a join, and then its access lets them in, it has not banned
      them, and there is a place. */
  lemma EntersByJoinOnly(h: Hall, op: Op, r: string, m: int)
    requires Inv(h) && r in h.rooms && m !in h.rooms[r].members && IsIn(Step(h, op).rooms, r, m)
    ensures op.JoinRoom? && op.socket in h.users && h.users[op.socket].member == m
    ensures LetsIn(h.rooms[r], m) && m !in h.rooms[r].ban && |h.rooms[r].members| < h.rooms[r].limit
  {
    hide Inv, Upper, Evict, LetsIn, AfterAdmin, AfterLogin, AfterCreateRoom, Administers, AfterJoinRoom;
    hide RoomNamed, HasAnyRole;
    assert !IsIn(h.rooms, r, m);
    if m !in Movers(h, op) {
      OnlyMoversMove(h, op, m);
    } else if op.JoinRoom? {
      JoinEnters(h, op.socket, op.name, r, m);
    } else {
      OthersOnlyLeave(h, op, r, m);
    }
  }

  lemma JoinEnters(h: Hall, s: string, name: string, r: string, m: int)
    requires Inv(h) && r in h.rooms && m !in h.rooms[r].members && s in h.users && h.users[s].member == m
    requires IsIn(AfterJoinRoom(h, s, name).rooms, r, m)
    ensures LetsIn(h.rooms[r], m) && m !in h.rooms[r].ban && |h.rooms[r].members| < h.rooms[r].limit
  {
    hide Inv, Upper, Evict, LetsIn, HasAnyRole, IsNamed;
    EvictMovesOne(h.rooms, m, m);
    assert JoinReply(h, s, name) == Done;
    var o := RoomNamed(h.rooms, h.users[s].env, name);
    assert !IsIn(Evict(h.rooms, m), r, m);
    assert o == Some(r);
    RolesLetIn(h.rooms[r], m);
  }

  lemma OthersOnlyLeave(h: Hall, op: Op, r: string, m: int)
    requires Inv(h) && r in h.rooms && !IsIn(h.rooms, r, m) && !op.JoinRoom? && m in Movers(h, op)
    ensures !IsIn(Step(h, op).rooms, r, m)
  {
    hide Inv, Upper, Evict, Managed, RoomOk, Administers, Created, CreateReply, IsIn;
    EvictMovesOne(h.rooms, m, m);
    match op
    case Admin(s, target, a) =>
      var o := Administers(h, s, target, a).value;
      RoomIsOk(h, o);
      ManagedMovesTarget(h.rooms, o, target, a, m);
    case CreateRoom(s, id, q) => NewRoomIsOther(h, s, id, q, r, m);
    case _ =>
  }

  lemma NewRoomIsOther(h: Hall, s: string, id: string, q: RoomRequest, r: string, m: int)
    requires Inv(h) && r in h.rooms && !IsIn(h.rooms, r, m) && CreateReply(h, s, q) == Done && h.users[s].member == m
    ensures !IsIn(AfterCreateRoom(h, s, id, q).rooms, r, m)
  {
    hide Inv, Upper, Evict, Created;
    EvictMovesOne(h.rooms, m, m);
    NewIdsAreNew(h);
    assert !IsIn(Evict(h.rooms, m), r, m);
  }

  /** What a room says of who may be in it. */
  predicate SameRule(a: Room, b: Room) {
    a.access == b.access && a.admin == b.admin && a.whitelist == b.whitelist
  }

  /** Over every run: while a room that is not for everybody keeps its access and its lists, whoever comes into it
      is in the list, administrators or whitelist, that its access names. */
  lemma {:induction false} OnlyWelcomeEnter(h: Hall, ops: seq<Op>, r: string, m: int)
    requires Inv(h) && r in h.rooms && "All" !in h.rooms[r].access && m !in h.rooms[r].members
    requires forall i :: 0 <= i <= |ops| && r in Run(h, ops[..i]).rooms ==>
      SameRule(Run(h, ops[..i]).rooms[r], h.rooms[r])
    ensures IsIn(Run(h, ops).rooms, r, m) ==>
      || ("Admin" in h.rooms[r].access && m in h.rooms[r].admin)
      || ("Whitelist" in h.rooms[r].access && m in h.rooms[r].whitelist)
    decreases |ops|
  {
    hide Inv, Step;
    if ops != [] {
      var n := |ops| - 1;
      var before := Run(h, ops[..n]);
      assert forall i :: 0 <= i <= n ==> ops[..n][..i] == ops[..i];
      assert ops[..|ops|] == ops;
      OnlyWelcomeEnter(h, ops[..n], r, m);
      RunKeepsInv(h, ops[..n]);
      NewIdsAreNew(h);
      RunIssues(h, ops[..n], r);
      if IsIn(Run(h, ops).rooms, r, m) && !IsIn(before.rooms, r, m) {
        if r !in before.rooms {
          GoneStaysGone(before, ops[n], r);
        }
        EntersByJoinOnly(before, ops[n], r, m);
      }
    }
  }

  /** An id is given to one room only, so a room that is gone stays gone. */
  lemma GoneStaysGone(h: Hall, op: Op, r: string)
    requires r in h.issued && r !in h.rooms
    ensures r !in Step(h, op).rooms && r in Step(h, op).issued
  {
    hide Upper, Created, Managed, Updated, RoomNamed, CreateReply, MayUpdate, HasAnyRole, IsFull;
  }

  lemma {:induction false} RunIssues(h: Hall, ops: seq<Op>, r: string)
    requires r in h.issued
    ensures r in Run(h, ops).issued
    decreases |ops|
  {
    if ops != [] {
      hide Evict;
      RunIssues(h, ops[..|ops| - 1], r);
    }
  }

  /** The answers when there is no room to speak of. */
  lemma JoinFindsNone(h: Hall, s: string, name: string)
    ensures JoinReply(h, s, name) == InvalidRoomData <==> name == ""
    ensures JoinReply(h, s, name) == AccountError <==> name != "" && s !in h.users
    ensures JoinReply(h, s, name) == CannotFindRoom <==>
      && name != "" && s in h.users
      && forall r :: r in h.rooms ==> h.rooms[r].env != h.users[s].env || Upper(h.rooms[r].name) != Upper(name)
  {
    hide Upper, HasAnyRole, IsFull;
    if s in h.users {
      assert forall r :: r in h.rooms ==>
        (IsNamed(h.rooms[r], h.users[s].env, name) <==>
         h.rooms[r].env == h.users[s].env && Upper(h.rooms[r].name) == Upper(name));
    }
  }

  lemma OnlyWhereEntered(before: map<string, Room>, rooms: map<string, Room>, r: string, room: Room, m: int)
    requires rooms == before[r := Entered(room, m)] && forall q :: !IsIn(before, q, m)
    ensures forall q :: IsIn(rooms, q, m) <==> q == r
  {
    assert m in Entered(room, m).members;
    forall q | q != r ensures !IsIn(rooms, q, m) {
      assert !IsIn(before, q, m);
    }
  }

  lemma SameNameSameRoom(h: Hall, r: string, o: Option<string>, env: string, name: string)
    requires Inv(h) && r in h.rooms && IsNamed(h.rooms[r], env, name) && o == RoomNamed(h.rooms, env, name)
    ensures o == Some(r)
  {
    hide Upper, RoomOk, UsersOk, RegistryOk;
  }

  /** A new room's creator is in it, alone, and in no other; nobody else's room is gone. */
  lemma CreateLands(h: Hall, s: string, id: string, q: RoomRequest)
    requires Inv(h) && CreateReply(h, s, q) == Done && id !in h.issued
    ensures
      var me, h' := h.users[s].member, AfterCreateRoom(h, s, id, q);
      && (forall r :: IsIn(h'.rooms, r, me) <==> r == id)
      && h'.rooms[id].members == [me] && h'.rooms[id].name == q.name && h'.rooms[id].env == h.users[s].env
  {
    hide Upper, Evict, RoomOk, LimitOf, IsRestrictive;
    CreatedIsEmpty(q, h.users[s].env, h.users[s].member);
    EvictMovesOne(h.rooms, h.users[s].member, h.users[s].member);
    OnlyWhereEntered(Evict(h.rooms, h.users[s].member), AfterCreateRoom(h, s, id, q).rooms, id,
                     Created(q, h.users[s].env, h.users[s].member), h.users[s].member);
  }

  /** Everybody else stays where they are. */
  lemma OnlyMoversMove(h: Hall, op: Op, x: int)
    requires Inv(h) && x !in Movers(h, op)
    ensures forall r :: IsIn(Step(h, op).rooms, r, x) <==> IsIn(h.rooms, r, x)
  {
    hide Inv, Evict, AfterAdmin, AfterLogin, AfterJoinRoom, AfterCreateRoom, Administers, RoomNamed;
    if op.Admin? {
      AdminMovesTarget(h, op.socket, op.target, op.action, x);
    } else if op.Login? {
      LoginMovesOne(h, op.socket, op.account, op.env, x);
    } else if op.CreateRoom? || op.JoinRoom? {
      RoomOpMovesOne(h, op, x);
    } else if op.socket in h.users {
      EvictMovesOne(h.rooms, h.users[op.socket].member, x);
    }
  }

  lemma NewIdsAreNew(h: Hall)
    requires Inv(h)
    ensures forall r :: r in h.rooms ==> r in h.issued
  {
  }

  /** Whoever is in a room has a number that was given out before. */
  lemma NobodyUnnumbered(h: Hall, x: int)
    requires Inv(h)
    ensures forall r :: IsIn(h.rooms, r, x) ==> x < h.next && x != 0
  {
    forall r | IsIn(h.rooms, r, x) ensures x < h.next && x != 0 {
      assert x in Present(h.users);
    }
  }

  lemma ManagedMovesTarget(rooms: map<string, Room>, r: string, target: int, a: Action, x: int)
    requires r in rooms && RoomOk(rooms[r])
    ensures
      var managed := rooms[r := Managed(rooms[r], target, a)];
      && (forall q :: IsIn(managed, q, x) <==> IsIn(rooms, q, x))
      && (forall q :: IsIn(Evict(managed, target), q, x) <==> IsIn(rooms, q, x) && x != target)
  {
    hide RoomOk, Managed, Evict;
    ManagedKeepsOk(rooms[r], target, a);
    ReplaceMovesNobody(rooms, r, Managed(rooms[r], target, a), x);
    EvictMovesOne(rooms[r := Managed(rooms[r], target, a)], target, x);
  }

  lemma UpdatedMovesNobody(rooms: map<string, Room>, r: string, q: RoomRequest, x: int)
    requires r in rooms && ValidUpdate(q)
    ensures forall t :: IsIn(rooms[r := Updated(rooms[r], q)], t, x) <==> IsIn(rooms, t, x)
  {
    hide Updated;
    UpdatedName(rooms[r], q);
    ReplaceMovesNobody(rooms, r, Updated(rooms[r], q), x);
  }

  lemma RoomIsOk(h: Hall, r: string)
    requires Inv(h) && r in h.rooms
    ensures RoomOk(h.rooms[r])
  {
  }

  lemma AdminMovesTarget(h: Hall, s: string, target: int, a: Action, x: int)
    requires Inv(h) && x !in Movers(h, Admin(s, target, a))
    ensures forall r :: IsIn(AfterAdmin(h, s, target, a).rooms, r, x) <==> IsIn(h.rooms, r, x)
  {
    hide Inv, Upper, Managed, Updated, ValidUpdate, RoomOk, Evict, NameTaken, Administers, IsIn;
    var o := Administers(h, s, target, a);
    if o.Some? {
      RoomIsOk(h, o.value);
      if a.Update? {
        if a.isObject && MayUpdate(h.rooms, o.value, a.request) {
          UpdatedMovesNobody(h.rooms, o.value, a.request, x);
        }
      } else {
        ManagedMovesTarget(h.rooms, o.value, target, a, x);
      }
    }
  }

  /** An administrator's action keeps its room, with the administrator in it, and everybody but a banned or
      kicked target exactly once; no other room changes. */
  lemma AdminKeepsItsRoom(h: Hall, s: string, target: int, a: Action)
    requires Inv(h) && Administers(h, s, target, a).Some?
    ensures
      var r, h' := Administers(h, s, target, a).value, AfterAdmin(h, s, target, a);
      && r in h'.rooms && h.users[s].member in h'.rooms[r].members
      && h'.rooms.Keys == h.rooms.Keys && (forall q :: q in h.rooms && q != r ==> h'.rooms[q] == h.rooms[q])
      && multiset(h'.rooms[r].members) ==
           multiset(h.rooms[r].members) - (if a.Ban? || a.Kick? then multiset{target} else multiset{})
  {
    hide Upper, Managed, Updated, ValidUpdate, Evict, Reordered;
    var r := Administers(h, s, target, a).value;
    var room := h.rooms[r];
    if a.Update? {
      if ValidUpdate(a.request) {
        UpdatedName(room, a.request);
      }
    } else {
      ManagedKeepsOk(room, target, a);
      var managed := h.rooms[r := Managed(room, target, a)];
      if (a.Ban? || a.Kick?) && target in room.members {
        BanOrKickTakesOne(h, r, target, a, h.users[s].member);
      }
    }
  }

  lemma BanOrKickTakesOne(h: Hall, r: string, target: int, a: Action, me: int)
    requires Inv(h) && r in h.rooms && me in h.rooms[r].members && target in h.rooms[r].members && me != target
    requires a.Ban? || a.Kick?
    ensures
      var rooms := Evict(h.rooms[r := Managed(h.rooms[r], target, a)], target);
      && r in rooms && me in rooms[r].members
      && rooms.Keys == h.rooms.Keys && (forall q :: q in h.rooms && q != r ==> rooms[q] == h.rooms[q])
      && multiset(rooms[r].members) == multiset(h.rooms[r].members) - multiset{target}
  {
    hide Upper, Managed, Evict, Without, UsersOk, RegistryOk;
    var room := h.rooms[r];
    ManagedKeepsOk(room, target, a);
    var managed := h.rooms[r := Managed(room, target, a)];
    assert me in managed[r].members;
    EvictFromOne(managed, r, target);
    WithoutTakesOne(managed[r].members, target);
  }

  lemma {:induction false} WithoutTakesOne(l: seq<int>, m: int)
    requires NoDuplicates(l)
    ensures multiset(Without(l, m)) == multiset(l) - multiset{m}
  {
    if l != [] {
      var front, last := l[..|l| - 1], l[|l| - 1];
      assert l == front + [last];
      assert last !in front;
      WithoutTakesOne(front, m);
    }
  }

  /** When only one room has `m`, and others too, evicting `m` changes that room alone. */
  lemma EvictFromOne(rooms: map<string, Room>, r: string, m: int)
    requires r in rooms && (exists x :: x in rooms[r].members && x != m)
    requires forall q :: q in rooms && q != r ==> m !in rooms[q].members && rooms[q].members != []
    ensures Evict(rooms, m) == rooms[r := Left(rooms[r], m)]
  {
    hide Without;
    var x :| x in rooms[r].members && x != m;
    assert x in Left(rooms[r], m).members;
    assert forall q :: q in rooms && q != r ==> Left(rooms[q], m) == rooms[q];
    var left, want := Evict(rooms, m), rooms[r := Left(rooms[r], m)];
    assert left.Keys == want.Keys;
    assert forall q :: q in want ==> left[q] == want[q];
  }

  // ----- Bans -----

  /** `m` is kept out of room `r`: it is on the ban list and not inside, or the room is gone for good. */
  predicate Barred(h: Hall, r: string, m: int) {
    r in h.issued && (r in h.rooms ==> m in h.rooms[r].ban && m !in h.rooms[r].members)
  }

  /** What may let `m` back into `r`: an update of the room, or an unban of `m` there. */
  ghost predicate Lifts(h: Hall, op: Op, r: string, m: int) {
    && op.Admin? && Administers(h, op.socket, op.target, op.action) == Some(r)
    && (op.action.Update? || (op.action.Unban? && op.target == m))
  }

  lemma BanBars(h: Hall, s: string, m: int)
    requires Inv(h) && Administers(h, s, m, Ban).Some?
    ensures Barred(AfterAdmin(h, s, m, Ban), Administers(h, s, m, Ban).value, m)
  {
    hide Upper, Without, RoomOk;
    var r := Administers(h, s, m, Ban).value;
    EvictedNowhere(h.rooms[r := Managed(h.rooms[r], m, Ban)], m);
  }

  lemma StepKeepsBarred(h: Hall, op: Op, r: string, m: int)
    requires Barred(h, r, m) && !Lifts(h, op, r, m)
    ensures Barred(Step(h, op), r, m)
  {
    hide Upper, IsFull, HasAnyRole, Created, Updated, MayUpdate, ValidCreate, NameTaken;
    match op
    case Admin(s, target, a) => AdminKeepsBarred(h, s, target, a, r, m);
    case _ =>
  }

  lemma AdminKeepsBarred(h: Hall, s: string, target: int, a: Action, r: string, m: int)
    requires Barred(h, r, m) && !Lifts(h, Admin(s, target, a), r, m)
    ensures Barred(AfterAdmin(h, s, target, a), r, m)
  {
    hide Upper, Updated, MayUpdate, Managed, Administers, RoomOf;
    if r in h.rooms && Administers(h, s, target, a) == Some(r) {
      ManagedBars(h.rooms[r], target, a, m);
    }
  }

  lemma ManagedBars(room: Room, target: int, a: Action, m: int)
    requires m in room.ban && m !in room.members && !(a.Unban? && target == m) && !a.Update?
    ensures m in Managed(room, target, a).ban && m !in Managed(room, target, a).members
  {
    hide Reordered;
    ReorderedPermutes(room.members, target, a);
    ReorderingKeepsDistinct(room.members, Reordered(room.members, target, a));
  }

  /** After a ban, its target stays out of the room on every continuation without an update of that room or
      an unban of the target there. */
  lemma {:induction false} BanLasts(h: Hall, s: string, m: int, ops: seq<Op>)
    requires Inv(h) && Administers(h, s, m, Ban).Some?
    requires forall i :: 0 <= i < |ops| ==>
      !Lifts(Run(AfterAdmin(h, s, m, Ban), ops[..i]), ops[i], Administers(h, s, m, Ban).value, m)
    ensures Barred(Run(AfterAdmin(h, s, m, Ban), ops), Administers(h, s, m, Ban).value, m)
    decreases |ops|
  {
    hide Barred, Lifts, Step, AfterAdmin, Administers, Inv;
    BanBars(h, s, m);
    if ops != [] {
      var before := ops[..|ops| - 1];
      forall i | 0 <= i < |before|
        ensures !Lifts(Run(AfterAdmin(h, s, m, Ban), before[..i]), before[i], Administers(h, s, m, Ban).value, m)
      {
        assert before[..i] == ops[..i];
      }
      BanLasts(h, s, m, before);
      StepKeepsBarred(Run(AfterAdmin(h, s, m, Ban), before), ops[|ops| - 1], Administers(h, s, m, Ban).value, m);
    }
  }

  // ----- Requests by their fields -----

  /** Different environments are told apart by their text. */
  lemma EnvTextInjective(a: Environment, b: Environment)
    ensures EnvText(a) == EnvText(b) ==> a == b
    ensures EnvText(Prod) == "PROD" && EnvText(Dev) == "DEV"
  {
    assert a.Local? ==> EnvText(a)[0] in EnvText(a) && EnvText(a)[0] <= '9';
    assert b.Local? ==> EnvText(b)[0] in EnvText(b) && EnvText(b)[0] <= '9';
    if a.Local? && b.Local? && EnvText(a) == EnvText(b) {
      DecimalInjective(a.n, b.n);
    }
  }

  /** The answers to a request for a new room, in their order. */
  lemma CreateAnswers(h: Hall, s: string, q: RoomRequest)
    ensures CreateReply(h, s, q) == InvalidRoomData <==> !ValidCreate(q)
    ensures CreateReply(h, s, q) == AccountError <==> ValidCreate(q) && s !in h.users
    ensures CreateReply(h, s, q) == RoomAlreadyExist <==>
      ValidCreate(q) && s in h.users && exists r :: r in h.rooms && Upper(h.rooms[r].name) == Upper(q.name)
    ensures CreateReply(h, s, q) in {InvalidRoomData, AccountError, RoomAlreadyExist, Done}
  {
    hide ValidCreate, Upper;
  }

  /** Administration is for an administrator inside the room; on oneself, only to exchange places or move. */
  lemma AdministersIff(h: Hall, s: string, target: int, a: Action, r: string)
    requires Inv(h)
    ensures Administers(h, s, target, a) == Some(r) <==>
      && s in h.users && r in h.rooms && h.users[s].member in h.rooms[r].members
      && h.users[s].member in h.rooms[r].admin
      && (h.users[s].member == target ==> a.Swap? || a.MoveLeft? || a.MoveRight?)
  {
    hide Upper, RoomOk, UsersOk, RegistryOk;
  }

  /** An update by an administrator is applied exactly when it is an object, valid, and its name is the room's own
      or nobody's. */
  lemma UpdateAppliesIff(h: Hall, s: string, target: int, a: Action, r: string)
    requires Administers(h, s, target, a) == Some(r) && a.Update?
    ensures
      var free := forall q :: q in h.rooms && Upper(h.rooms[q].name) == Upper(a.request.name) ==>
                    Upper(h.rooms[r].name) == Upper(a.request.name);
      if a.isObject && ValidUpdate(a.request) && free
      then AfterAdmin(h, s, target, a) == h.(rooms := h.rooms[r := Updated(h.rooms[r], a.request)])
      else AfterAdmin(h, s, target, a) == h
  {
    hide Upper, Updated, ValidUpdate;
  }

  /** A login with a registered name: the account has this session and no other, with its number or, if it had
      none, the next; its member is in no room; nobody else's session or number changes. */
  lemma LoginLands(h: Hall, s: string, text: string, env: Environment)
    requires Inv(h) && s !in h.users && Upper(text) in h.registered
    ensures
      var account, h' := Upper(text), AfterLogin(h, s, text, env);
      var number := if h.registered[account] != 0 then h.registered[account] else h.next;
      && s in h'.users && h'.users[s] == User(number, account, EnvText(env))
      && (forall t :: t != s ==> (t in h'.users <==> t in h.users && h.users[t].account != account))
      && (forall t :: t in h'.users && t != s ==> h'.users[t] == h.users[t])
      && h'.registered == h.registered[account := number]
      && h'.next == (if h.registered[account] != 0 then h.next else h.next + 1)
      && (forall r :: !IsIn(h'.rooms, r, number))
  {
    hide Upper, EnvText, Evict, RoomsOk;
    var account := Upper(text);
    var number := if h.registered[account] != 0 then h.registered[account] else h.next;
    EvictMovesOne(h.rooms, number, number);
  }

  /** A disconnect ends the session of that socket, its member is in no room, and nothing else changes. */
  lemma DisconnectLands(h: Hall, s: string)
    requires Inv(h) && s in h.users
    ensures
      var h' := AfterDisconnect(h, s);
      && h'.users == h.users - {s} && h'.registered == h.registered && h'.next == h.next && h'.issued == h.issued
      && forall r :: !IsIn(h'.rooms, r, h.users[s].member)
  {
    hide Evict;
    EvictMovesOne(h.rooms, h.users[s].member, h.users[s].member);
  }

  // ----- Banned members inside -----

  predicate HasNoBanned(r: Room) {
    forall x :: x in r.members ==> x !in r.ban
  }

  ghost predicate NoBannedInside(rooms: map<string, Room>) {
    forall r :: r in rooms ==> HasNoBanned(rooms[r])
  }

  /** A creator who bans himself, or an update whose list of the banned has somebody in the room: nobody leaves
      for that. */
  ghost predicate BansInsider(h: Hall, op: Op) {
    match op
    case CreateRoom(s, id, q) =>
      CreateReply(h, s, q) == Done && id !in h.issued && h.users[s].member in OrElse(q.ban, [])
    case Admin(s, target, a) =>
      var o := Administers(h, s, target, a);
      && o.Some? && a.Update? && a.isObject && MayUpdate(h.rooms, o.value, a.request)
      && exists x :: x in h.rooms[o.value].members && x in a.request.ban.value
    case _ => false
  }

  lemma EvictLeavesNoBanned(rooms: map<string, Room>, m: int)
    requires forall r, x :: r in rooms && x in rooms[r].members && x in rooms[r].ban ==> x == m
    ensures NoBannedInside(Evict(rooms, m))
  {
    hide Without;
  }

  /** The only steps after which a banned member is inside a room are those. */
  lemma StepNoBannedIff(h: Hall, op: Op)
    requires NoBannedInside(h.rooms)
    ensures NoBannedInside(Step(h, op).rooms) <==> !BansInsider(h, op)
  {
    hide Upper, EnvText, Evict, RoomNamed, RoomOf, Created, ValidCreate, NameTaken, IsFull, HasAnyRole;
    match op
    case CreateRoom(s, id, q) => CreateNoBannedIff(h, s, id, q);
    case Admin(s, target, a) => AdminNoBannedIff(h, s, target, a);
    case Login(s, text, env) =>
      if Upper(text) in h.registered {
        var n := h.registered[Upper(text)];
        EvictLeavesNoBanned(h.rooms, if n == 0 then h.next else n);
      }
    case Disconnect(s) => if s in h.users { EvictLeavesNoBanned(h.rooms, h.users[s].member); }
    case LeaveRoom(s) => if s in h.users { EvictLeavesNoBanned(h.rooms, h.users[s].member); }
    case JoinRoom(s, name) => if s in h.users { EvictLeavesNoBanned(h.rooms, h.users[s].member); }
    case CreateAccount(_, _, _) =>
  }

  lemma ReplacedNoBannedIff(rooms: map<string, Room>, r: string, room: Room)
    requires NoBannedInside(rooms)
    ensures NoBannedInside(rooms[r := room]) <==> HasNoBanned(room)
  {
    hide HasNoBanned;
    assert rooms[r := room][r] == room;
  }

  lemma CreateNoBannedIff(h: Hall, s: string, id: string, q: RoomRequest)
    requires NoBannedInside(h.rooms)
    ensures NoBannedInside(AfterCreateRoom(h, s, id, q).rooms) <==> !BansInsider(h, CreateRoom(s, id, q))
  {
    hide Upper, Evict, ValidCreate, NameTaken, LimitOf, RolesAsked, IsRestrictive, Administers, MayUpdate;
    if CreateReply(h, s, q) == Done && id !in h.issued {
      var me := h.users[s];
      EvictLeavesNoBanned(h.rooms, me.member);
      var room := Entered(Created(q, me.env, me.member), me.member);
      assert room.members == [me.member] && room.ban == OrElse(q.ban, []);
      assert me.member in room.members;
      ReplacedNoBannedIff(Evict(h.rooms, me.member), id, room);
    }
  }

  lemma AdminNoBannedIff(h: Hall, s: string, target: int, a: Action)
    requires NoBannedInside(h.rooms)
    ensures NoBannedInside(AfterAdmin(h, s, target, a).rooms) <==> !BansInsider(h, Admin(s, target, a))
  {
    hide Upper, Evict, Managed, NameTaken, LimitOf, RolesAsked, FlagAsked, IsRoomName, Administers, CreateReply;
    var o := Administers(h, s, target, a);
    if o.Some? && a.Update? {
      if a.isObject && MayUpdate(h.rooms, o.value, a.request) {
        var room := Updated(h.rooms[o.value], a.request);
        assert room.members == h.rooms[o.value].members && room.ban == a.request.ban.value;
        ReplacedNoBannedIff(h.rooms, o.value, room);
      }
    } else if o.Some? {
      var room := h.rooms[o.value];
      ManagedBans(room, target, a);
      var managed := h.rooms[o.value := Managed(room, target, a)];
      if (a.Ban? || a.Kick?) && target in room.members {
        EvictLeavesNoBanned(managed, target);
      }
    }
  }

  lemma ManagedBans(room: Room, target: int, a: Action)
    requires HasNoBanned(room) && !a.Update?
    ensures
      var r := Managed(room, target, a);
      && (forall x :: x in r.members <==> x in room.members)
      && forall x :: x in r.members && x in r.ban ==> a.Ban? && x == target
  {
    hide Reordered;
    ReorderedPermutes(room.members, target, a);
    ReorderingKeepsDistinct(room.members, Reordered(room.members, target, a));
  }

  /** No step of the run is one of those. */
  ghost predicate NeverBansInsider(h: Hall, ops: seq<Op>) {
    forall i :: 0 <= i < |ops| ==> !BansInsider(Run(h, ops[..i]), ops[i])
  }

  lemma {:induction false} RunNoBannedAtEnd(h: Hall, ops: seq<Op>)
    requires NoBannedInside(h.rooms) && NeverBansInsider(h, ops)
    ensures NoBannedInside(Run(h, ops).rooms)
    decreases |ops|
  {
    hide NoBannedInside, BansInsider, Step;
    if ops != [] {
      var before := ops[..|ops| - 1];
      forall i | 0 <= i < |before| ensures !BansInsider(Run(h, before[..i]), before[i]) {
        assert before[..i] == ops[..i];
      }
      RunNoBannedAtEnd(h, before);
      StepNoBannedIff(Run(h, before), ops[|ops| - 1]);
    }
  }

  /** Along a run no banned member is ever inside a room exactly when no step of it is one of those. */
  lemma RunNoBannedIff(h: Hall, ops: seq<Op>)
    requires NoBannedInside(h.rooms)
    ensures NeverBansInsider(h, ops) <==> forall i :: 0 <= i <= |ops| ==> NoBannedInside(Run(h, ops[..i]).rooms)
  {
    hide NoBannedInside, BansInsider, Step;
    if NeverBansInsider(h, ops) {
      forall i | 0 <= i <= |ops| ensures NoBannedInside(Run(h, ops[..i]).rooms) {
        assert forall k :: 0 <= k < i ==> ops[..i][..k] == ops[..k];
        RunNoBannedAtEnd(h, ops[..i]);
      }
    } else {
      var i :| 0 <= i < |ops| && BansInsider(Run(h, ops[..i]), ops[i]);
      if NoBannedInside(Run(h, ops[..i]).rooms) {
        assert ops[..i + 1][..i] == ops[..i];
        StepNoBannedIff(Run(h, ops[..i]), ops[i]);
      }
    }
  }

  // ----- Sessions and numbers -----

  predicate Opens(op: Op, s: string) {
    (op.Login? || op.CreateAccount?) && op.socket == s
  }

  lemma {:induction false} ClosedStaysClosed(h: Hall, ops: seq<Op>, s: string)
    requires s !in h.users && forall i :: 0 <= i < |ops| ==> !Opens(ops[i], s)
    ensures s !in Run(h, ops).users
    decreases |ops|
  {
    if ops != [] {
      ClosedStaysClosed(h, ops[..|ops| - 1], s);
      ClosedByStep(Run(h, ops[..|ops| - 1]), ops[|ops| - 1], s);
    }
  }

  lemma ClosedByStep(h: Hall, op: Op, s: string)
    requires s !in h.users && !Opens(op, s)
    ensures s !in Step(h, op).users
  {
    hide RoomNamed, Evict, Administers;
  }

  /** A second login takes the account over, and the disconnect of the first socket, however late, changes
      nothing: no session, no room. */
  lemma LateDisconnectChangesNothing(h: Hall, s: string, t: string, text: string, env: Environment, ops: seq<Op>)
    requires Inv(h) && s in h.users && h.users[s].account == Upper(text) && t !in h.users
    requires forall i :: 0 <= i < |ops| ==> !Opens(ops[i], s)
    ensures
      var h1 := AfterLogin(h, t, text, env);
      && t in h1.users && s !in h1.users && h1.users[t].member == h.users[s].member
      && Step(Run(h1, ops), Disconnect(s)) == Run(h1, ops)
  {
    hide Evict, Run, Upper, EnvText;
    ClosedStaysClosed(AfterLogin(h, t, text, env), ops, s);
  }

  /** An account keeps the number it has, and a number given out is one no account ever had. */
  lemma StepKeepsNumbers(h: Hall, op: Op, a: string)
    requires Inv(h)
    ensures h.next <= Step(h, op).next
    ensures a in h.registered && h.registered[a] != 0 ==>
      a in Step(h, op).registered && Step(h, op).registered[a] == h.registered[a]
    ensures a in Step(h, op).registered && Step(h, op).registered[a] != 0
            && !(a in h.registered && h.registered[a] != 0) ==>
      Step(h, op).registered[a] == h.next && forall b :: b in h.registered ==> h.registered[b] != h.next
  {
    hide Evict, Upper, EnvText, Administers, RoomNamed;
  }

  lemma {:induction false} NumbersLast(h: Hall, ops: seq<Op>, a: string)
    requires Inv(h)
    ensures h.next <= Run(h, ops).next
    ensures a in h.registered && h.registered[a] != 0 ==>
      a in Run(h, ops).registered && Run(h, ops).registered[a] == h.registered[a]
    ensures a in Run(h, ops).registered && Run(h, ops).registered[a] != 0
            && !(a in h.registered && h.registered[a] != 0) ==>
      Run(h, ops).registered[a] >= h.next
    decreases |ops|
  {
    if ops != [] {
      hide Inv, Step;
      NumbersLast(h, ops[..|ops| - 1], a);
      RunKeepsInv(h, ops[..|ops| - 1]);
      StepKeepsNumbers(Run(h, ops[..|ops| - 1]), ops[|ops| - 1], a);
    }
  }
}
