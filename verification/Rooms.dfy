/** One chat room: `src/state/chatroom.rs`, the role checks and the normalising of requests in
    `src/room/mod.rs`, and the per-room edits of `src/room/admin.rs`. */
module Rooms {
  import opened Numbers
  import opened Options

  const LIMIT_DEFAULT := 10
  const LIMIT_MINIMUM := 2
  const LIMIT_MAXIMUM := 20
  const NAME_MAX := 20

  // ----- Names -----

  predicate IsRoomName(s: string) {
    1 <= |s| <= NAME_MAX && forall i :: 0 <= i < |s| ==> ' ' <= s[i] <= '~'
  }

  // ----- Member lists -----

  /** The list without `m`: what `retain(|x| x != m)` leaves. */
  function Without(l: seq<int>, m: int): (r: seq<int>)
    ensures forall x :: x in r <==> x in l && x != m
    ensures |r| <= |l|
    ensures m !in l ==> r == l
  {
    if l == [] then []
    else
      var front := Without(l[..|l| - 1], m);
      assert l == l[..|l| - 1] + [l[|l| - 1]];
      if l[|l| - 1] == m then front else front + [l[|l| - 1]]
  }

  function Including(l: seq<int>, m: int): seq<int> {
    if m in l then l else l + [m]
  }

  predicate NoDuplicates(l: seq<int>) {
    forall i, j :: 0 <= i < j < |l| ==> l[i] != l[j]
  }

  lemma {:induction false} WithoutKeepsDistinct(l: seq<int>, m: int)
    requires NoDuplicates(l)
    ensures NoDuplicates(Without(l, m))
  {
    if l != [] {
      WithoutKeepsDistinct(l[..|l| - 1], m);
      assert l[|l| - 1] !in l[..|l| - 1];
    }
  }

  function Position(l: seq<int>, m: int): (r: Option<nat>)
    ensures r.None? <==> m !in l
    ensures r.Some? ==> r.value < |l| && l[r.value] == m && m !in l[..r.value]
  {
    if l == [] then None else if l[0] == m then Some(0)
    else
      var rest := Position(l[1..], m);
      if rest.None? then None else Some(rest.value + 1)
  }

  function Swapped(l: seq<int>, i: nat, j: nat): (r: seq<int>)
    requires i < |l| && j < |l|
    ensures |r| == |l|
  {
    l[i := l[j]][j := l[i]]
  }

  lemma SwappedPermutes(l: seq<int>, i: nat, j: nat)
    requires i < |l| && j < |l|
    ensures multiset(Swapped(l, i, j)) == multiset(l)
  {
  }

  /** A reordering has the same members, none of them twice. */
  lemma ReorderingKeepsDistinct(l: seq<int>, r: seq<int>)
    requires multiset(l) == multiset(r)
    ensures |l| == |r| && (forall x :: x in l <==> x in r)
    ensures NoDuplicates(l) ==> NoDuplicates(r)
  {
    assert |multiset(l)| == |multiset(r)|;
    forall x ensures x in l <==> x in r {
      assert x in multiset(l) <==> x in multiset(r);
    }
    if NoDuplicates(l) {
      forall i, j | 0 <= i < j < |r| ensures r[i] != r[j] {
        OnceIfDistinct(l, r[i]);
        TwiceIfEqual(r, i, j);
      }
    }
  }

  lemma {:induction false} OnceIfDistinct(l: seq<int>, x: int)
    requires NoDuplicates(l)
    ensures multiset(l)[x] <= 1
  {
    if l != [] {
      var front, last := l[..|l| - 1], l[|l| - 1];
      assert l == front + [last];
      OnceIfDistinct(front, x);
      assert multiset(l) == multiset(front) + multiset{last};
      assert last !in front;
    }
  }

  lemma TwiceIfEqual(r: seq<int>, i: nat, j: nat)
    requires i < j < |r|
    ensures r[i] == r[j] ==> multiset(r)[r[i]] >= 2
  {
    assert r == r[..j] + [r[j]] + r[j + 1..];
    assert r[i] in r[..j];
  }

  // ----- Rooms -----

  datatype Room = Room(name: string, env: string, creator: int,
                       admin: seq<int>, whitelist: seq<int>, ban: seq<int>,
                       limit: int, visibility: seq<string>, access: seq<string>,
                       private: bool, locked: bool, members: seq<int>)

  const ALL := "All"
  const ADMIN := "Admin"
  const WHITELIST := "Whitelist"

  predicate IsRestrictive(roles: seq<string>) {
    ALL !in roles
  }

  predicate HasAnyRole(member: int, room: Room, roles: seq<string>) {
    ALL in roles || (ADMIN in roles && member in room.admin) || (WHITELIST in roles && member in room.whitelist)
  }

  function NewRoom(name: string, env: string, creator: int): Room {
    Room(name, env, creator, [creator], [], [], LIMIT_DEFAULT, [ALL], [ALL], false, false, [])
  }

  predicate IsFull(r: Room) {
    |r.members| >= r.limit
  }

  /** What is always so of a room, whatever its members. */
  predicate RoomOk(r: Room) {
    && IsRoomName(r.name) && ':' !in r.env
    && LIMIT_MINIMUM <= r.limit <= LIMIT_MAXIMUM && |r.members| <= LIMIT_MAXIMUM
    && r.private == IsRestrictive(r.visibility) && r.locked == IsRestrictive(r.access)
    && NoDuplicates(r.members)
  }

  // ----- Requests -----

  datatype LimitField = NumberLimit(n: int) | TextLimit(text: string) | NoLimit

  /** The limit a request asks for: an integer or its text, when it fits 64 bits, cut to 32 bits, and the default
      when that is out of range or missing. */
  function LimitOf(f: LimitField): (r: int)
    ensures LIMIT_MINIMUM <= r <= LIMIT_MAXIMUM
  {
    var n := match f
      case NumberLimit(n) => if IsI64(n) then n else LIMIT_DEFAULT
      case TextLimit(text) => if ParseI64(text).Some? then ParseI64(text).value else LIMIT_DEFAULT
      case NoLimit => LIMIT_DEFAULT;
    var n32 := AsI32(n);
    if n32 < LIMIT_MINIMUM || n32 > LIMIT_MAXIMUM then LIMIT_DEFAULT else n32
  }

  /** Exactly the 64-bit numbers within 32-bit wrap of the range are taken; every other becomes the default. */
  lemma LimitIsWrapped(n: int)
    ensures
      var k := (n + 0x8000_0000) / 0x1_0000_0000;
      LimitOf(NumberLimit(n)) ==
        if IsI64(n) && LIMIT_MINIMUM <= n - k * 0x1_0000_0000 <= LIMIT_MAXIMUM then n - k * 0x1_0000_0000
        else LIMIT_DEFAULT
  {
  }

  /** A request as parsed: the name is trimmed, `textsFit` says that the other texts are there and within
      their lengths, and a field that is absent or malformed is `None`. */
  datatype RoomRequest = RoomRequest(name: string, textsFit: bool, admin: Option<seq<int>>, ban: Option<seq<int>>,
                                     whitelist: Option<seq<int>>, limit: LimitField,
                                     visibility: Option<seq<string>>, access: Option<seq<string>>,
                                     private: Option<bool>, locked: Option<bool>)

  function OrElse<T>(o: Option<T>, otherwise: T): T {
    if o.Some? then o.value else otherwise
  }

  /** The role list a request asks for: as given, or what the old flag stands for. */
  function RolesAsked(roles: Option<seq<string>>, flag: Option<bool>, restricted: seq<string>): Option<seq<string>> {
    if roles.Some? then roles
    else if flag.Some? then Some(if flag.value then restricted else [ALL])
    else None
  }

  function FlagAsked(roles: Option<seq<string>>, flag: Option<bool>): Option<bool> {
    if roles.Some? then Some(IsRestrictive(roles.value)) else flag
  }

  predicate ValidCreate(q: RoomRequest) {
    && q.visibility.Some? != q.private.Some?
    && !(q.access.Some? && q.locked.Some?)
    && IsRoomName(q.name) && q.textsFit
  }

  /** The room a valid request makes, before its creator enters. */
  function Created(q: RoomRequest, env: string, creator: int): Room {
    var r := NewRoom(q.name, env, creator);
    var visibility := RolesAsked(q.visibility, q.private, [ADMIN]);
    var access := RolesAsked(q.access, q.locked, [ADMIN, WHITELIST]);
    r.(admin := OrElse(q.admin, [creator]), ban := OrElse(q.ban, []), whitelist := OrElse(q.whitelist, []),
       limit := LimitOf(q.limit),
       visibility := OrElse(visibility, [ALL]), private := IsRestrictive(OrElse(visibility, [ALL])),
       access := OrElse(access, [ALL]), locked := IsRestrictive(OrElse(access, [ALL])))
  }

  predicate ValidUpdate(q: RoomRequest) {
    IsRoomName(q.name) && q.textsFit && q.admin.Some? && q.ban.Some?
  }

  function Updated(r: Room, q: RoomRequest): Room
    requires ValidUpdate(q)
  {
    r.(name := q.name, admin := q.admin.value, ban := q.ban.value, whitelist := OrElse(q.whitelist, r.whitelist),
       limit := LimitOf(q.limit),
       visibility := OrElse(RolesAsked(q.visibility, q.private, [ADMIN]), r.visibility),
       private := OrElse(FlagAsked(q.visibility, q.private), r.private),
       access := OrElse(RolesAsked(q.access, q.locked, [ADMIN, WHITELIST]), r.access),
       locked := OrElse(FlagAsked(q.access, q.locked), r.locked))
  }

  lemma RequestsKeepRoomsOk(r: Room, q: RoomRequest, env: string, creator: int)
    requires ':' !in env
    ensures ValidCreate(q) ==> RoomOk(Created(q, env, creator).(members := [creator]))
    ensures RoomOk(r) && ValidUpdate(q) ==> RoomOk(Updated(r, q)) && Updated(r, q).members == r.members
  {
    assert ADMIN != ALL && WHITELIST != ALL;
    hide IsRoomName, LimitOf, AsI32;
  }

  // ----- Administration -----

  datatype Action =
    | Update(request: RoomRequest, isObject: bool)
    | Swap(first: Option<int>, second: Option<int>)
    | Ban | Kick | MoveLeft | MoveRight
    | Shuffle(order: seq<int>)
    | Promote | Demote | Whitelist | Unwhitelist | Unban
    | OtherAction

  predicate AllowedOnSelf(a: Action) {
    a.Swap? || a.MoveLeft? || a.MoveRight?
  }

  /** The order of members after an action that reorders them. */
  function Reordered(l: seq<int>, target: int, a: Action): seq<int> {
    match a
    case Swap(first, second) =>
      if first.Some? && second.Some? && first != second && first.value in l && second.value in l
      then Swapped(l, Position(l, first.value).value, Position(l, second.value).value) else l
    case MoveLeft =>
      if target in l && Position(l, target).value > 0
      then Swapped(l, Position(l, target).value, Position(l, target).value - 1) else l
    case MoveRight =>
      if target in l && Position(l, target).value + 1 < |l|
      then Swapped(l, Position(l, target).value, Position(l, target).value + 1) else l
    case Shuffle(order) => if target in l && multiset(order) == multiset(l) then order else l
    case _ => l
  }

  /** Every reordering is a permutation. */
  lemma ReorderedPermutes(l: seq<int>, target: int, a: Action)
    ensures multiset(Reordered(l, target, a)) == multiset(l)
  {
    hide Swapped;
    forall i: nat, j: nat | i < |l| && j < |l| ensures multiset(Swapped(l, i, j)) == multiset(l) {
      SwappedPermutes(l, i, j);
    }
  }

  /** A room's lists after an action on `target`: promotion and demotion need the target in the room, and
      unbanning needs it out of the room. */
  function Listed(r: Room, target: int, a: Action): Room {
    var inside := target in r.members;
    match a
    case Ban => r.(ban := Including(r.ban, target))
    case Promote => if inside then r.(admin := Including(r.admin, target)) else r
    case Demote => if inside then r.(admin := Without(r.admin, target)) else r
    case Whitelist => r.(whitelist := Including(r.whitelist, target))
    case Unwhitelist => r.(whitelist := Without(r.whitelist, target))
    case Unban => if inside then r else r.(ban := Without(r.ban, target))
    case _ => r
  }

  /** A room after an action by one of its administrators that is not an update, before a banned or kicked
      target has left. */
  function Managed(r: Room, target: int, a: Action): Room {
    Listed(r, target, a).(members := Reordered(r.members, target, a))
  }

  lemma ManagedKeepsOk(r: Room, target: int, a: Action)
    requires RoomOk(r)
    ensures RoomOk(Managed(r, target, a)) && multiset(Managed(r, target, a).members) == multiset(r.members)
    ensures Managed(r, target, a).name == r.name && Managed(r, target, a).env == r.env
    ensures forall x :: x in Managed(r, target, a).members <==> x in r.members
  {
    hide Reordered, IsRoomName;
    ReorderedPermutes(r.members, target, a);
    ReorderingKeepsDistinct(r.members, Reordered(r.members, target, a));
  }

  // ----- What the actions do, by position and membership -----

  /** `r` is `l` with the members at `i` and `j` in each other's places. */
  predicate Exchanged(l: seq<int>, r: seq<int>, i: int, j: int) {
    && 0 <= i < |l| && 0 <= j < |l| && |r| == |l| && r[i] == l[j] && r[j] == l[i]
    && forall k :: 0 <= k < |l| && k != i && k != j ==> r[k] == l[k]
  }

  /** The member at `i` moves one place to the front, or to the back, if there is one. */
  lemma MovesAt(l: seq<int>, i: nat)
    requires i < |l| && NoDuplicates(l)
    ensures if i > 0 then Exchanged(l, Reordered(l, l[i], MoveLeft), i, i - 1) else Reordered(l, l[i], MoveLeft) == l
    ensures
      if i + 1 < |l| then Exchanged(l, Reordered(l, l[i], MoveRight), i, i + 1)
      else Reordered(l, l[i], MoveRight) == l
  {
    PositionOnly(l, i);
  }

  lemma SwapsAt(l: seq<int>, i: nat, j: nat, target: int)
    requires i < |l| && j < |l| && i != j && NoDuplicates(l)
    ensures Exchanged(l, Reordered(l, target, Swap(Some(l[i]), Some(l[j]))), i, j)
  {
    PositionOnly(l, i);
    PositionOnly(l, j);
  }

  lemma PositionOnly(l: seq<int>, i: nat)
    requires i < |l| && NoDuplicates(l)
    ensures Position(l, l[i]) == Some(i)
  {
  }

  /** The order stays unless the action moves, exchanges or shuffles members who are in the room. */
  lemma OrderStays(l: seq<int>, target: int, a: Action)
    requires !(a.Swap? && a.first.Some? && a.second.Some? && a.first != a.second
               && a.first.value in l && a.second.value in l)
    requires (a.MoveLeft? || a.MoveRight? || a.Shuffle?) ==>
      target !in l || (a.Shuffle? && multiset(a.order) != multiset(l))
    ensures Reordered(l, target, a) == l
  {
  }

  lemma ShuffleOrders(l: seq<int>, target: int, order: seq<int>)
    requires target in l && multiset(order) == multiset(l)
    ensures Reordered(l, target, Shuffle(order)) == order
  {
  }

  /** Who is on the lists of a room after an action: promoting and demoting touch the administrators, and only
      for somebody inside; an unban needs its target outside; nothing else changes. */
  lemma ListsAfter(r: Room, target: int, a: Action, x: int)
    requires !a.Update?
    ensures
      var r', inside := Managed(r, target, a), target in r.members;
      && (x in r'.admin <==>
            (a.Promote? && inside && x == target) || (x in r.admin && !(a.Demote? && inside && x == target)))
      && (x in r'.whitelist <==>
            (a.Whitelist? && x == target) || (x in r.whitelist && !(a.Unwhitelist? && x == target)))
      && (x in r'.ban <==> (a.Ban? && x == target) || (x in r.ban && !(a.Unban? && !inside && x == target)))
      && r'.(admin := r.admin, whitelist := r.whitelist, ban := r.ban, members := r.members) == r
  {
    hide Reordered;
  }

  /** A new room: the lists asked for, with the creator as administrator and nobody banned or listed by default,
      and for everybody unless roles or the old flags say otherwise. */
  lemma CreatedAs(q: RoomRequest, env: string, creator: int)
    ensures
      var r := Created(q, env, creator);
      && r.name == q.name && r.env == env && r.creator == creator && r.members == []
      && (q.admin.Some? ==> r.admin == q.admin.value) && (q.admin.None? ==> r.admin == [creator])
      && (q.ban.Some? ==> r.ban == q.ban.value) && (q.ban.None? ==> r.ban == [])
      && (q.whitelist.Some? ==> r.whitelist == q.whitelist.value) && (q.whitelist.None? ==> r.whitelist == [])
      && AsAsked(q, r, ["All"], ["All"]) && r.limit == LimitOf(q.limit)
  {
    hide LimitOf;
  }

  /** The roles are those asked for; else what the old flag stands for; else as they were. */
  predicate AsAsked(q: RoomRequest, r: Room, visibility: seq<string>, access: seq<string>) {
    && (r.visibility == if q.visibility.Some? then q.visibility.value
                        else if q.private == Some(true) then ["Admin"]
                        else if q.private == Some(false) then ["All"]
                        else visibility)
    && (r.access == if q.access.Some? then q.access.value
                    else if q.locked == Some(true) then ["Admin", "Whitelist"]
                    else if q.locked == Some(false) then ["All"]
                    else access)
  }

  /** An updated room: name, administrators and bans as asked, the whitelist and the roles only if asked, and
      the members and the rest as before. */
  lemma UpdatedAs(r: Room, q: RoomRequest)
    requires ValidUpdate(q)
    ensures
      var r' := Updated(r, q);
      && r'.name == q.name && Some(r'.admin) == q.admin && Some(r'.ban) == q.ban
      && r'.whitelist == (if q.whitelist.Some? then q.whitelist.value else r.whitelist)
      && AsAsked(q, r', r.visibility, r.access) && r'.limit == LimitOf(q.limit)
      && r'.members == r.members && r'.env == r.env && r'.creator == r.creator
  {
    hide LimitOf;
  }

  /** What a request for a room must have. */
  lemma ValidIff(q: RoomRequest)
    ensures ValidCreate(q) <==>
      && ((q.visibility.Some? && q.private.None?) || (q.visibility.None? && q.private.Some?))
      && (q.access.None? || q.locked.None?) && q.textsFit
      && 1 <= |q.name| <= 20 && forall i :: 0 <= i < |q.name| ==> 32 <= q.name[i] as int <= 126
    ensures ValidUpdate(q) <==>
      && q.admin.Some? && q.ban.Some? && q.textsFit
      && 1 <= |q.name| <= 20 && forall i :: 0 <= i < |q.name| ==> 32 <= q.name[i] as int <= 126
  {
  }

  /** The limit is the number asked for, or its text, if that is from 2 to 20 or wraps to it; else 10. */
  lemma LimitAsked(n: int)
    requires 2 <= n <= 20
    ensures LimitOf(NumberLimit(n)) == n && LimitOf(NoLimit) == 10
    ensures LimitOf(NumberLimit(1)) == 10 && LimitOf(NumberLimit(21)) == 10
    ensures forall text :: ParseI64(text) == Some(n) ==> LimitOf(TextLimit(text)) == n
  {
  }
}
