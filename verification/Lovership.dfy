/** The six-step lovership protocol of `src/relations/mod.rs`, with the NPC lovers of
    `src/account/mod.rs`. Each account keeps a list of entries, in memory while online and cleaned of
    pending offers in the store. The handlers are proved to keep three shapes of entry only; the
    properties over whole runs are about lists of those shapes. */
module Lovership {
  import opened Lists
  import opened Options
  import opened UpdateKeys

  const LOVERSHIP_DELAY_MS := 604_800_000
  const MAX_LOVERS := 5

  // ----- Lists of the three shapes -----

  /** An NPC, a member who asked to begin dating, or a partner: dating (0), engaged (1) or married (2),
      perhaps with a pending offer from the partner to take the next step. */
  datatype Heart =
    | Npc(name: string)
    | Asked(from: int)
    | Partner(who: int, name: string, start: int, stage: int, offered: bool)

  function Whom(h: Heart): Option<int> {
    match h
    case Npc(_) => None
    case Asked(from) => Some(from)
    case Partner(who, _, _, _, _) => Some(who)
  }

  predicate Named(h: Heart, name: string) {
    !h.Asked? && h.name == name
  }

  /** An entry without its pending offer. */
  function Settled(h: Heart): Heart {
    if h.Partner? then h.(offered := false) else h
  }

  /** The first entry about `p`. */
  function IndexOf(l: seq<Heart>, p: int): (r: Option<nat>)
    ensures r.Some? ==>
      r.value < |l| && Whom(l[r.value]) == Some(p) && forall k :: 0 <= k < r.value ==> Whom(l[k]) != Some(p)
    ensures r.None? ==> forall k :: 0 <= k < |l| ==> Whom(l[k]) != Some(p)
  {
    if l == [] then None
    else
      var front := IndexOf(l[..|l| - 1], p);
      if front.Some? then front
      else if Whom(l[|l| - 1]) == Some(p) then Some(|l| - 1)
      else None
  }

  function Tie(l: seq<Heart>, p: int): (r: Option<Heart>)
    ensures r.Some? ==> Whom(r.value) == Some(p)
  {
    var i := IndexOf(l, p);
    if i.Some? then Some(l[i.value]) else None
  }

  /** What is left of a tie in the store. */
  function Stored(t: Option<Heart>): Option<Heart> {
    if t.None? || t.value.Asked? then None else Some(Settled(t.value))
  }

  function NotPartner(t: Option<Heart>): Option<Heart> {
    if t.Some? && t.value.Partner? then None else t
  }

  /** What is kept of a list in the store: pending dating offers go, other entries lose their offers. */
  function Clean(l: seq<Heart>): seq<Heart> {
    if l == [] then []
    else
      var front, last := Clean(l[..|l| - 1]), l[|l| - 1];
      if last.Asked? then front else front + [Settled(last)]
  }

  /** The list without its partnership with `p`. */
  function Forsaken(l: seq<Heart>, p: int): seq<Heart> {
    if l == [] then []
    else
      var front, last := Forsaken(l[..|l| - 1], p), l[|l| - 1];
      if last.Partner? && last.who == p then front else front + [last]
  }

  /** The list with its entry about `p` replaced by `h`, or with `h` at the end. */
  function Wed(l: seq<Heart>, p: int, h: Heart): seq<Heart> {
    var i := IndexOf(l, p);
    if i.Some? then l[i.value := h] else l + [h]
  }

  /** The first entry of that name, or else the last entry: what an NPC break removes. */
  function NamedOrLast(l: seq<Heart>, name: string): (r: Option<nat>)
    ensures r.None? <==> l == []
    ensures r.Some? ==> r.value < |l|
    ensures r.Some? ==> forall k :: 0 <= k < r.value ==> !Named(l[k], name)
    ensures r.Some? ==> Named(l[r.value], name) || (r.value == |l| - 1 && forall h :: h in l ==> !Named(h, name))
  {
    if l == [] then None else Some(FirstNamed(l, name, 0))
  }

  function FirstNamed(l: seq<Heart>, name: string, i: nat): (r: nat)
    requires i < |l| && forall k :: 0 <= k < i ==> !Named(l[k], name)
    ensures r < |l| && forall k :: 0 <= k < r ==> !Named(l[k], name)
    ensures Named(l[r], name) || (r == |l| - 1 && forall h :: h in l ==> !Named(h, name))
    decreases |l| - i
  {
    if Named(l[i], name) || i == |l| - 1 then i else FirstNamed(l, name, i + 1)
  }

  predicate Fine(h: Heart, m: int) {
    && Whom(h) != Some(m)
    && (h.Partner? ==> 0 <= h.stage <= 2 && (h.offered ==> h.stage <= 1))
  }

  /** A list of `m`: no two entries about the same member, none about `m`, stages 0 to 2, and a pending
      offer only where a next stage exists. */
  predicate Good(l: seq<Heart>, m: int) {
    && (forall k :: 0 <= k < |l| ==> Fine(l[k], m))
    && (forall j, k :: 0 <= j < k < |l| && Whom(l[j]).Some? ==> Whom(l[j]) != Whom(l[k]))
  }

  lemma TieSnoc(l: seq<Heart>, h: Heart, p: int)
    ensures Tie(l + [h], p) == if Tie(l, p).Some? then Tie(l, p) else if Whom(h) == Some(p) then Some(h) else None
  {
    assert (l + [h])[..|l|] == l;
  }

  lemma GoodSnoc(l: seq<Heart>, h: Heart, m: int)
    ensures Good(l + [h], m) <==> Good(l, m) && Fine(h, m) && (Whom(h).Some? ==> Tie(l, Whom(h).value).None?)
  {
    var l' := l + [h];
    assert l'[|l|] == h && forall k :: 0 <= k < |l| ==> l'[k] == l[k];
    if Good(l', m) && Whom(h).Some? {
      assert forall k :: 0 <= k < |l| ==> Whom(l'[k]) != Whom(l'[|l|]);
    }
  }

  lemma TieIff(l: seq<Heart>, m: int, i: nat, p: int)
    requires Good(l, m) && i < |l| && Whom(l[i]) == Some(p)
    ensures IndexOf(l, p) == Some(i)
  {
  }

  lemma TieWed(l: seq<Heart>, m: int, q: int, h: Heart, p: int)
    requires Good(l, m) && Whom(h) == Some(q) && Fine(h, m)
    ensures Good(Wed(l, q, h), m)
    ensures Tie(Wed(l, q, h), p) == if p == q then Some(h) else Tie(l, p)
  {
    var i := IndexOf(l, q);
    if i.None? {
      TieSnoc(l, h, p);
      GoodSnoc(l, h, m);
    } else {
      var l' := l[i.value := h];
      assert forall k :: 0 <= k < |l| ==> Whom(l'[k]) == Whom(l[k]);
      assert Good(l', m);
      if Tie(l, p).Some? {
        TieIff(l', m, IndexOf(l, p).value, p);
      }
    }
  }

  lemma WedTies(l: seq<Heart>, m: int, q: int, h: Heart)
    requires Good(l, m) && Whom(h) == Some(q) && Fine(h, m)
    ensures Good(Wed(l, q, h), m)
    ensures forall p :: Tie(Wed(l, q, h), p) == if p == q then Some(h) else Tie(l, p)
  {
    TieWed(l, m, q, h, q);
    forall p ensures Tie(Wed(l, q, h), p) == if p == q then Some(h) else Tie(l, p) {
      TieWed(l, m, q, h, p);
    }
  }

  lemma {:induction false} TieClean(l: seq<Heart>, m: int, p: int)
    requires Good(l, m)
    ensures Good(Clean(l), m) && Tie(Clean(l), p) == Stored(Tie(l, p)) && |Clean(l)| <= |l|
  {
    if l != [] {
      var front, last := l[..|l| - 1], l[|l| - 1];
      assert l == front + [last];
      GoodSnoc(front, last, m);
      TieClean(front, m, p);
      TieSnoc(front, last, p);
      if !last.Asked? {
        if Whom(last).Some? {
          TieClean(front, m, Whom(last).value);
        }
        GoodSnoc(Clean(front), Settled(last), m);
        TieSnoc(Clean(front), Settled(last), p);
      }
    }
  }

  lemma {:induction false} CleanTwice(l: seq<Heart>)
    ensures Clean(Clean(l)) == Clean(l)
  {
    if l != [] {
      var front, last := l[..|l| - 1], l[|l| - 1];
      CleanTwice(front);
      assert (Clean(front) + [Settled(last)])[..|Clean(front)|] == Clean(front);
    }
  }

  lemma {:induction false} TieForsaken(l: seq<Heart>, m: int, q: int, p: int)
    requires Good(l, m)
    ensures Good(Forsaken(l, q), m) && |Forsaken(l, q)| <= |l|
    ensures Tie(Forsaken(l, q), p) == if p == q then NotPartner(Tie(l, p)) else Tie(l, p)
  {
    if l != [] {
      var front, last := l[..|l| - 1], l[|l| - 1];
      assert l == front + [last];
      GoodSnoc(front, last, m);
      TieForsaken(front, m, q, p);
      TieSnoc(front, last, p);
      if !(last.Partner? && last.who == q) {
        if Whom(last).Some? {
          TieForsaken(front, m, q, Whom(last).value);
        }
        GoodSnoc(Forsaken(front, q), last, m);
        TieSnoc(Forsaken(front, q), last, p);
      }
    }
  }

  lemma TieRemoved(l: seq<Heart>, m: int, i: nat, p: int)
    requires Good(l, m) && i < |l|
    ensures Good(Removed(l, i), m)
    ensures Tie(Removed(l, i), p) == if Whom(l[i]) == Some(p) then None else Tie(l, p)
  {
    var r := Removed(l, i);
    assert forall k :: 0 <= k < |r| ==> r[k] == if k < i then l[k] else l[k + 1];
    var j := IndexOf(l, p);
    if j.Some? && j.value != i {
      TieIff(r, m, if j.value < i then j.value else j.value - 1, p);
    }
  }

  /** Removing the one partnership with `q` by position or by member is the same. */
  lemma {:induction false} ForsakenIsRemoved(l: seq<Heart>, m: int, i: nat, q: int)
    requires Good(l, m) && i < |l| && l[i].Partner? && l[i].who == q
    ensures Forsaken(l, q) == Removed(l, i)
  {
    var front, last := l[..|l| - 1], l[|l| - 1];
    assert l == front + [last];
    GoodSnoc(front, last, m);
    if i == |l| - 1 {
      NothingForsaken(front, q);
    } else {
      ForsakenIsRemoved(front, m, i, q);
      TieIff(l, m, i, q);
      assert Whom(last) != Some(q);
    }
  }

  lemma {:induction false} NothingForsaken(l: seq<Heart>, q: int)
    requires Tie(l, q).None?
    ensures Forsaken(l, q) == l
  {
    if l != [] {
      var front, last := l[..|l| - 1], l[|l| - 1];
      assert l == front + [last];
      TieSnoc(front, last, q);
      NothingForsaken(front, q);
    }
  }

  // ----- The machine -----

  datatype Action = Propose | Accept | Query

  /** What a request meets: the members in the actor's room, if any; whether the target has the actor
      on their black list; both names; the clock. */
  datatype Env = Env(room: Option<set<int>>, blacklisted: bool, srcName: string, targetName: string, now: int)

  /** The lists in memory of the accounts online, and the stored lists of all. */
  datatype Court = Court(now: map<int, seq<Heart>>, saved: map<int, seq<Heart>>)

  function Put(c: Court, m: int, l: seq<Heart>, s: seq<Heart>): Court {
    Court(c.now[m := l], c.saved[m := s])
  }

  /** The target's list after a proposal: a dating offer if they are strangers and there is room, else
      an offer of the next step on a tie that is old enough. */
  function Courted(l: seq<Heart>, src: int, now: int): seq<Heart> {
    var i := IndexOf(l, src);
    if i.None? then if |l| < MAX_LOVERS then l + [Asked(src)] else l
    else
      var h := l[i.value];
      if h.Partner? && !h.offered && h.stage in {0, 1} && h.start + LOVERSHIP_DELAY_MS <= now
      then l[i.value := h.(offered := true)]
      else l
  }

  predicate Meets(c: Court, src: int, target: int, e: Env) {
    && src in c.now && target in c.now && src != target
    && e.room.Some? && target in e.room.value && !e.blacklisted
  }

  /** The stage that `src` reaches with `target` by accepting now, if there is an offer to accept. */
  function NextStage(c: Court, src: int, target: int, e: Env): Option<int> {
    if !Meets(c, src, target, e) || |c.now[src]| > MAX_LOVERS then None
    else
      var t := Tie(c.now[src], target);
      if t.None? then None
      else if t.value.Asked? then
        if |c.now[target]| < MAX_LOVERS || Tie(c.now[target], src).Some? then Some(0) else None
      else if t.value.Partner? && t.value.offered then Some(t.value.stage + 1)
      else None
  }

  function Bound(c: Court, src: int, target: int, stage: int, e: Env): Court
    requires src in c.now && target in c.now
  {
    var l := Wed(c.now[src], target, Partner(target, e.targetName, e.now, stage, false));
    var k := Wed(c.now[target], src, Partner(src, e.srcName, e.now, stage, false));
    Put(Put(c, src, l, Clean(l)), target, k, Clean(k))
  }

  function Act(c: Court, src: int, target: int, action: Action, e: Env): Court {
    if !Meets(c, src, target, e) then c
    else if action == Propose && (|c.now[src]| < MAX_LOVERS || Tie(c.now[src], target).Some?) then
      c.(now := c.now[target := Courted(c.now[target], src, e.now)])
    else if action == Accept && NextStage(c, src, target, e).Some? then
      Bound(c, src, target, NextStage(c, src, target, e).value, e)
    else c
  }

  predicate MayBreak(c: Court, src: int, target: int, now: int) {
    && src in c.now && target >= 0
    && var t := Tie(c.now[src], target);
      t.Some? && t.value.Partner? && (t.value.stage == 2 ==> t.value.start + LOVERSHIP_DELAY_MS <= now)
  }

  /** A break takes the partnership out of both lists, wherever the partner's is kept. */
  function Broken(c: Court, src: int, target: int): Court
    requires src in c.now
  {
    var l := Forsaken(c.now[src], target);
    var c' := Put(c, src, l, Clean(l));
    if target in c.now then
      var k := Forsaken(c.now[target], src);
      Put(c', target, k, Clean(k))
    else if target in c.saved then c'.(saved := c'.saved[target := Forsaken(c.saved[target], src)])
    else c'
  }

  function NpcBroken(c: Court, src: int, name: string): Court
    requires src in c.now
  {
    var i := NamedOrLast(c.now[src], name);
    var l := if i.Some? then Removed(c.now[src], i.value) else [];
    Put(c, src, l, Clean(l))
  }

  predicate MayTakeNpc(c: Court, m: int, name: string) {
    && m in c.now && "NPC-" <= name && |c.now[m]| < MAX_LOVERS
    && forall h :: h in c.now[m] ==> !Named(h, name)
  }

  /** An update of these keys, one of them a `Lover`, is not stored when it is judged by one delayed key. */
  predicate WrittenLater(keys: set<string>) {
    OnlyDelayed(Counted(keys, true))
  }

  /** Then the new lover is not stored with it. */
  function NpcTaken(c: Court, m: int, name: string, onlyDelayed: bool): Court
    requires m in c.now && m in c.saved
  {
    var l := Clean(c.now[m] + [Npc(name)]);
    Put(c, m, l, if onlyDelayed then c.saved[m] else l)
  }

  datatype Op =
    | Request(src: int, target: int, action: Action, env: Env)
    | Break(src: int, target: int, npcName: Option<string>, now: int)
    | TakeNpc(member: int, name: string, keys: set<string>)
    | Login(member: int)
    | Logout(member: int)
    | Join(member: int)

  function Step(c: Court, op: Op): Court {
    match op
    case Request(src, target, action, env) => Act(c, src, target, action, env)
    case Break(src, target, npcName, now) =>
      if target < 0 then if npcName.Some? && src in c.now then NpcBroken(c, src, npcName.value) else c
      else if MayBreak(c, src, target, now) then Broken(c, src, target)
      else c
    case TakeNpc(m, name, keys) =>
      if MayTakeNpc(c, m, name) && m in c.saved then NpcTaken(c, m, name, WrittenLater(keys)) else c
    case Login(m) => if m in c.saved && m !in c.now then c.(now := c.now[m := c.saved[m]]) else c
    case Logout(m) => c.(now := c.now - {m})
    case Join(m) => if m in c.saved then c else Put(c, m, [], [])
  }

  function Run(c: Court, ops: seq<Op>): Court
    decreases |ops|
  {
    if ops == [] then c else Step(Run(c, ops[..|ops| - 1]), ops[|ops| - 1])
  }

  // ----- What every step keeps -----

  function Effective(c: Court, m: int): seq<Heart>
    requires m in c.saved
  {
    if m in c.now then c.now[m] else c.saved[m]
  }

  /** The stored list `s` of `m` holds what `l` holds about other members, without the offers. */
  ghost predicate StoredAs(l: seq<Heart>, s: seq<Heart>, m: int) {
    Good(l, m) && Good(s, m) && forall p :: Tie(s, p) == Stored(Tie(l, p))
  }

  ghost predicate Shaped(c: Court) {
    c.now.Keys <= c.saved.Keys && forall m :: m in c.saved ==> StoredAs(Effective(c, m), c.saved[m], m)
  }

  datatype Vow = Vow(stage: int, start: int)

  function VowIn(l: seq<Heart>, p: int): Option<Vow> {
    var t := Tie(l, p);
    if t.Some? && t.value.Partner? then Some(Vow(t.value.stage, t.value.start)) else None
  }

  /** What `a` has with `b`, in memory while `a` is online and in the store otherwise. */
  function VowOf(c: Court, a: int, b: int): Option<Vow> {
    if a in c.saved then VowIn(Effective(c, a), b) else None
  }

  lemma CleanIsStored(l: seq<Heart>, m: int)
    requires Good(l, m)
    ensures StoredAs(l, Clean(l), m) && StoredAs(Clean(l), Clean(l), m)
  {
    TieClean(l, m, m);
    forall p ensures Tie(Clean(l), p) == Stored(Tie(l, p)) {
      TieClean(l, m, p);
    }
  }

  lemma PutKeepsShaped(c: Court, m: int, l: seq<Heart>, s: seq<Heart>)
    requires Shaped(c) && m in c.now && StoredAs(l, s, m)
    ensures Shaped(Put(c, m, l, s))
    ensures forall x, y :: VowOf(Put(c, m, l, s), x, y) == if x == m then VowIn(l, y) else VowOf(c, x, y)
  {
    hide StoredAs, VowIn;
    var c' := Put(c, m, l, s);
    assert forall k :: k in c.saved && k != m ==> Effective(c', k) == Effective(c, k);
  }

  /** Each of two changes of vows between `a` and `b` touches nothing else. */
  ghost predicate OnlyBetween(c: Court, c': Court, a: int, b: int, vow: Option<Vow>) {
    forall x, y :: VowOf(c', x, y) == if (x == a && y == b) || (x == b && y == a) then vow else VowOf(c, x, y)
  }

  ghost predicate SameVows(c: Court, c': Court) {
    forall x, y :: VowOf(c', x, y) == VowOf(c, x, y)
  }

  lemma BoundIsMutual(c: Court, src: int, target: int, stage: int, e: Env)
    requires Shaped(c) && src in c.now && target in c.now && src != target && 0 <= stage <= 2
    ensures Shaped(Bound(c, src, target, stage, e))
    ensures OnlyBetween(c, Bound(c, src, target, stage, e), src, target, Some(Vow(stage, e.now)))
  {
    hide Wed, Tie, Good;
    var h := Partner(target, e.targetName, e.now, stage, false);
    var g := Partner(src, e.srcName, e.now, stage, false);
    var l := Wed(c.now[src], target, h);
    var k := Wed(c.now[target], src, g);
    assert Good(Effective(c, src), src) && Good(Effective(c, target), target);
    WedTies(c.now[src], src, target, h);
    WedTies(c.now[target], target, src, g);
    CleanIsStored(l, src);
    CleanIsStored(k, target);
    PutKeepsShaped(c, src, l, Clean(l));
    PutKeepsShaped(Put(c, src, l, Clean(l)), target, k, Clean(k));
  }

  /** An offer changes neither what is stored of a list nor the vows in it. */
  lemma CourtedTies(l: seq<Heart>, m: int, src: int, now: int)
    requires Good(l, m) && src != m
    ensures Good(Courted(l, src, now), m)
    ensures forall p :: Stored(Tie(Courted(l, src, now), p)) == Stored(Tie(l, p))
    ensures forall p :: VowIn(Courted(l, src, now), p) == VowIn(l, p)
  {
    hide Good, Tie, Wed;
    if Courted(l, src, now) != l {
      var h := CourtedIsWed(l, m, src, now);
      WedTies(l, m, src, h);
    }
  }

  lemma CourtedIsWed(l: seq<Heart>, m: int, src: int, now: int) returns (h: Heart)
    requires Good(l, m) && src != m && Courted(l, src, now) != l
    ensures Whom(h) == Some(src) && Fine(h, m) && Courted(l, src, now) == Wed(l, src, h)
    ensures Stored(Some(h)) == Stored(Tie(l, src))
    ensures h.Partner? <==> VowIn(l, src).Some?
    ensures h.Partner? ==> Some(Vow(h.stage, h.start)) == VowIn(l, src)
  {
    var i := IndexOf(l, src);
    h := if i.None? then Asked(src) else l[i.value].(offered := true);
  }

  lemma OfferKeepsVows(c: Court, src: int, target: int, now: int)
    requires Shaped(c) && target in c.now && src != target
    ensures
      var c' := c.(now := c.now[target := Courted(c.now[target], src, now)]);
      Shaped(c') && SameVows(c, c')
  {
    hide Good, Courted, Tie, VowIn;
    var l := c.now[target];
    assert Effective(c, target) == l;
    CourtedTies(l, target, src, now);
    PutKeepsShaped(c, target, Courted(l, src, now), c.saved[target]);
    assert Put(c, target, Courted(l, src, now), c.saved[target]).saved == c.saved;
  }

  lemma ForsakenTies(l: seq<Heart>, m: int, q: int)
    requires Good(l, m)
    ensures Good(Forsaken(l, q), m)
    ensures forall p :: Tie(Forsaken(l, q), p) == if p == q then NotPartner(Tie(l, p)) else Tie(l, p)
  {
    TieForsaken(l, m, q, q);
    forall p ensures Tie(Forsaken(l, q), p) == if p == q then NotPartner(Tie(l, p)) else Tie(l, p) {
      TieForsaken(l, m, q, p);
    }
  }

  /** A break leaves neither side with a vow and touches nothing else. */
  lemma BreakIsMutual(c: Court, src: int, target: int)
    requires Shaped(c) && src in c.now && src != target
    ensures Shaped(Broken(c, src, target))
    ensures OnlyBetween(c, Broken(c, src, target), src, target, None)
  {
    hide Tie, Good, Forsaken, Clean;
    assert Effective(c, src) == c.now[src];
    var l := Forsaken(c.now[src], target);
    ForsakenTies(c.now[src], src, target);
    CleanIsStored(l, src);
    var c' := Put(c, src, l, Clean(l));
    PutKeepsShaped(c, src, l, Clean(l));
    if target in c.now {
      assert Effective(c, target) == c.now[target];
      var k := Forsaken(c.now[target], src);
      ForsakenTies(c.now[target], target, src);
      CleanIsStored(k, target);
      PutKeepsShaped(c', target, k, Clean(k));
    } else if target in c.saved {
      var k := Forsaken(c.saved[target], src);
      ForsakenTies(c.saved[target], target, src);
      assert StoredAs(k, k, target);
      var d := c'.(saved := c'.saved[target := k]);
      assert Effective(d, target) == k;
      assert forall m :: m in c.saved && m != target ==> Effective(d, m) == Effective(c', m);
    }
  }

  lemma NpcBreakTakesOne(c: Court, src: int, name: string)
    requires Shaped(c) && src in c.now
    ensures Shaped(NpcBroken(c, src, name))
    ensures
      var i := NamedOrLast(c.now[src], name);
      forall x, y :: VowOf(NpcBroken(c, src, name), x, y) ==
        if i.Some? && x == src && Whom(c.now[src][i.value]) == Some(y) then None else VowOf(c, x, y)
  {
    hide Clean;
    var l := c.now[src];
    assert Effective(c, src) == l;
    var i := NamedOrLast(l, name);
    var k := if i.Some? then Removed(l, i.value) else [];
    if i.Some? {
      TieRemoved(l, src, i.value, src);
      forall p ensures Tie(k, p) == if Whom(l[i.value]) == Some(p) then None else Tie(l, p) {
        TieRemoved(l, src, i.value, p);
      }
    }
    CleanIsStored(k, src);
    PutKeepsShaped(c, src, k, Clean(k));
  }

  lemma NpcKeepsVows(c: Court, m: int, name: string, onlyDelayed: bool)
    requires Shaped(c) && m in c.now
    ensures m in c.saved && Shaped(NpcTaken(c, m, name, onlyDelayed))
    ensures SameVows(c, NpcTaken(c, m, name, onlyDelayed))
  {
    var l := c.now[m];
    assert Effective(c, m) == l;
    var k := l + [Npc(name)];
    GoodSnoc(l, Npc(name), m);
    forall p ensures Tie(k, p) == Tie(l, p) {
      TieSnoc(l, Npc(name), p);
    }
    CleanIsStored(k, m);
    assert forall p :: Stored(Tie(Clean(k), p)) == Tie(Clean(k), p);
    PutKeepsShaped(c, m, Clean(k), if onlyDelayed then c.saved[m] else Clean(k));
  }

  lemma SessionKeepsVows(c: Court, m: int, op: Op)
    requires Shaped(c) && op in {Login(m), Logout(m), Join(m)}
    ensures Shaped(Step(c, op)) && SameVows(c, Step(c, op))
  {
    var c' := Step(c, op);
    assert forall k :: k in c.saved && k != m ==> Effective(c', k) == Effective(c, k);
    if m in c.saved {
      var l, s := Effective(c, m), c.saved[m];
      assert StoredAs(l, s, m);
      assert forall p :: Stored(Tie(s, p)) == Stored(Stored(Tie(l, p))) == Tie(s, p);
      assert forall p :: VowIn(s, p) == VowIn(l, p);
    }
  }

  // ----- Lovership is mutual -----

  /** What an operation does to what two members have with each other. */
  datatype Change = NoChange | Between(a: int, b: int, vow: Option<Vow>)

  function ChangeOf(c: Court, op: Op): Change {
    match op
    case Request(src, target, action, env) =>
      if action == Accept && NextStage(c, src, target, env).Some?
      then Between(src, target, Some(Vow(NextStage(c, src, target, env).value, env.now))) else NoChange
    case Break(src, target, _, now) =>
      if MayBreak(c, src, target, now) then Between(src, target, None) else NoChange
    case _ => NoChange
  }

  /** A break with an NPC's name takes out an entry that is not a partner's. */
  predicate SparesPartners(c: Court, op: Op) {
    op.Break? && op.target < 0 && op.npcName.Some? && op.src in c.now && c.now[op.src] != [] ==>
      !c.now[op.src][NamedOrLast(c.now[op.src], op.npcName.value).value].Partner?
  }

  ghost predicate Mutual(c: Court) {
    forall x, y :: VowOf(c, x, y) == VowOf(c, y, x)
  }

  /** Each step is one change, seen from both sides, of what two members have with each other. */
  lemma StepIsOneChange(c: Court, op: Op)
    requires Shaped(c) && SparesPartners(c, op)
    ensures Shaped(Step(c, op))
    ensures
      var d := ChangeOf(c, op);
      if d.NoChange? then SameVows(c, Step(c, op)) else OnlyBetween(c, Step(c, op), d.a, d.b, d.vow)
  {
    hide VowIn, Tie, Good, Bound, Broken, NpcBroken, NpcTaken, Courted, WrittenLater;
    match op
    case Request(src, target, action, env) =>
      if Meets(c, src, target, env) {
        if action == Propose {
          OfferKeepsVows(c, src, target, env.now);
        } else if action == Accept && NextStage(c, src, target, env).Some? {
          StageIsValid(c, src, target, env);
          BoundIsMutual(c, src, target, NextStage(c, src, target, env).value, env);
        }
      }
    case Break(src, target, npcName, now) =>
      if target < 0 && npcName.Some? && src in c.now {
        NpcBreakTakesOne(c, src, npcName.value);
        AskedIsNoVow(c, src);
      } else if MayBreak(c, src, target, now) {
        NotSelf(c, src, target);
        BreakIsMutual(c, src, target);
      }
    case TakeNpc(m, name, keys) =>
      if m in c.now {
        NpcKeepsVows(c, m, name, WrittenLater(keys));
      }
    case Login(m) => SessionKeepsVows(c, m, op);
    case Logout(m) => SessionKeepsVows(c, m, op);
    case Join(m) => SessionKeepsVows(c, m, op);
  }

  lemma StageIsValid(c: Court, src: int, target: int, e: Env)
    requires Shaped(c) && NextStage(c, src, target, e).Some?
    ensures 0 <= NextStage(c, src, target, e).value <= 2
  {
    assert StoredAs(Effective(c, src), c.saved[src], src);
  }

  lemma NotSelf(c: Court, src: int, target: int)
    requires Shaped(c) && src in c.now && Tie(c.now[src], target).Some?
    ensures src != target
  {
    assert StoredAs(Effective(c, src), c.saved[src], src);
  }

  lemma AskedIsNoVow(c: Court, src: int)
    requires Shaped(c) && src in c.now
    ensures forall i, y :: 0 <= i < |c.now[src]| && Whom(c.now[src][i]) == Some(y) && !c.now[src][i].Partner? ==>
      VowOf(c, src, y).None?
  {
    var l := c.now[src];
    assert StoredAs(Effective(c, src), c.saved[src], src);
    forall i, y | 0 <= i < |l| && Whom(l[i]) == Some(y) && !l[i].Partner? ensures VowOf(c, src, y).None? {
      TieIff(l, src, i, y);
    }
  }

  ghost predicate AtMostFive(c: Court) {
    c.now.Keys <= c.saved.Keys
    && forall m :: m in c.saved ==> |Effective(c, m)| <= MAX_LOVERS && |c.saved[m]| <= MAX_LOVERS
  }

  lemma {:induction false} CleanShortens(l: seq<Heart>)
    ensures |Clean(l)| <= |l|
  {
    if l != [] {
      CleanShortens(l[..|l| - 1]);
    }
  }

  lemma {:induction false} ForsakenShortens(l: seq<Heart>, q: int)
    ensures |Forsaken(l, q)| <= |l|
  {
    if l != [] {
      ForsakenShortens(l[..|l| - 1], q);
    }
  }

  lemma PutKeepsFive(c: Court, m: int, l: seq<Heart>, s: seq<Heart>)
    requires AtMostFive(c) && m in c.saved && |l| <= MAX_LOVERS && |s| <= MAX_LOVERS
    ensures AtMostFive(Put(c, m, l, s))
  {
    var c' := Put(c, m, l, s);
    assert forall k :: k in c.saved && k != m ==> Effective(c', k) == Effective(c, k);
  }

  /** Once mutual, accepting an engagement or a wedding finds the target's entry and replaces it: the
      list does not grow, and the branches that would append are never taken. */
  lemma EntriesAreFound(c: Court, src: int, target: int, e: Env)
    requires Shaped(c) && Mutual(c) && NextStage(c, src, target, e).Some?
    ensures IndexOf(c.now[src], target).Some?
    ensures NextStage(c, src, target, e) != Some(0) ==> IndexOf(c.now[target], src).Some?
    ensures
      var c' := Bound(c, src, target, NextStage(c, src, target, e).value, e);
      |c'.now[src]| == |c.now[src]| && (|c'.now[target]| <= |c.now[target]| || |c'.now[target]| <= MAX_LOVERS)
  {
    StageIsValid(c, src, target, e);
    assert StoredAs(Effective(c, src), c.saved[src], src);
    assert VowOf(c, src, target) == VowOf(c, target, src);
  }

  lemma BoundKeepsFive(c: Court, src: int, target: int, e: Env)
    requires Shaped(c) && Mutual(c) && AtMostFive(c) && NextStage(c, src, target, e).Some?
    ensures AtMostFive(Bound(c, src, target, NextStage(c, src, target, e).value, e))
  {
    EntriesAreFound(c, src, target, e);
    hide NextStage, Good, Mutual, Shaped;
    var stage := NextStage(c, src, target, e).value;
    var c' := Bound(c, src, target, stage, e);
    var l := Wed(c.now[src], target, Partner(target, e.targetName, e.now, stage, false));
    var k := Wed(c.now[target], src, Partner(src, e.srcName, e.now, stage, false));
    assert c'.now[target] == k;
    assert |c.now[src]| == |Effective(c, src)| && |c.now[target]| == |Effective(c, target)|;
    CleanShortens(l);
    CleanShortens(k);
    PutKeepsFive(c, src, l, Clean(l));
    PutKeepsFive(Put(c, src, l, Clean(l)), target, k, Clean(k));
  }

  lemma BrokenKeepsFive(c: Court, src: int, target: int)
    requires AtMostFive(c) && src in c.now
    ensures AtMostFive(Broken(c, src, target))
  {
    hide Forsaken, Clean;
    var l := Forsaken(c.now[src], target);
    assert |c.now[src]| == |Effective(c, src)|;
    ForsakenShortens(c.now[src], target);
    CleanShortens(l);
    PutKeepsFive(c, src, l, Clean(l));
    var c' := Put(c, src, l, Clean(l));
    if target in c'.now {
      assert target in c.now ==> |c.now[target]| == |Effective(c, target)|;
      var theirs := if target in c.now then c.now[target] else [];
      ForsakenShortens(theirs, src);
      var k := Forsaken(theirs, src);
      CleanShortens(k);
      PutKeepsFive(c', target, k, Clean(k));
    } else if target in c.saved {
      ForsakenShortens(c.saved[target], src);
      var d := Broken(c, src, target);
      assert forall m :: m in c.saved && m != target ==> Effective(d, m) == Effective(c', m);
    }
  }

  lemma NpcStepsKeepFive(c: Court, m: int, name: string, onlyDelayed: bool)
    requires AtMostFive(c) && m in c.now
    ensures AtMostFive(NpcBroken(c, m, name))
    ensures |c.now[m]| < MAX_LOVERS ==> AtMostFive(NpcTaken(c, m, name, onlyDelayed))
  {
    hide Clean;
    assert |c.now[m]| == |Effective(c, m)|;
    var i := NamedOrLast(c.now[m], name);
    var l := if i.Some? then Removed(c.now[m], i.value) else [];
    CleanShortens(l);
    PutKeepsFive(c, m, l, Clean(l));
    var k := Clean(c.now[m] + [Npc(name)]);
    CleanShortens(c.now[m] + [Npc(name)]);
    if |c.now[m]| < MAX_LOVERS {
      PutKeepsFive(c, m, k, if onlyDelayed then c.saved[m] else k);
    }
  }

  /** What holds at all times as long as no NPC break takes out a partner. */
  ghost predicate Loyal(c: Court) {
    Shaped(c) && Mutual(c) && AtMostFive(c)
  }

  lemma StepKeepsFive(c: Court, op: Op)
    requires Loyal(c)
    ensures AtMostFive(Step(c, op))
  {
    hide Good, Tie, Bound, Broken, NpcBroken, NpcTaken, VowOf, NextStage, StoredAs, WrittenLater;
    var c' := Step(c, op);
    match op
    case Request(src, target, action, env) =>
      if Meets(c, src, target, env) {
        if action == Propose {
          assert |c.now[target]| == |Effective(c, target)|;
          PutKeepsFive(c, target, Courted(c.now[target], src, env.now), c.saved[target]);
          assert Put(c, target, Courted(c.now[target], src, env.now), c.saved[target]).saved == c.saved;
        } else if action == Accept && NextStage(c, src, target, env).Some? {
          BoundKeepsFive(c, src, target, env);
        }
      }
    case Break(src, target, npcName, now) =>
      if src in c.now {
        BrokenKeepsFive(c, src, target);
        NpcStepsKeepFive(c, src, if npcName.Some? then npcName.value else "", false);
      }
    case TakeNpc(m, name, keys) =>
      if m in c.now {
        NpcStepsKeepFive(c, m, name, WrittenLater(keys));
      }
    case Login(m) => assert forall k :: k in c.saved && k != m ==> Effective(c', k) == Effective(c, k);
    case Logout(m) => assert forall k :: k in c.saved && k != m ==> Effective(c', k) == Effective(c, k);
    case Join(m) => assert forall k :: k in c.saved && k != m ==> Effective(c', k) == Effective(c, k);
  }

  lemma StepKeepsLoyal(c: Court, op: Op)
    requires Loyal(c) && SparesPartners(c, op)
    ensures Loyal(Step(c, op))
  {
    StepIsOneChange(c, op);
    StepKeepsFive(c, op);
    hide Shaped, AtMostFive, Step, ChangeOf, VowOf, SparesPartners;
  }

  /** Over every run in which no NPC break hits a partner, lovership is mutual: A has a partner B with
      stage s since t exactly when B has A with the same; nobody has two entries about the same
      member, more than five entries, or a stored list that differs but for offers and NPCs. */
  lemma {:induction false} LoverIsMutual(c: Court, ops: seq<Op>)
    requires Loyal(c)
    requires forall i :: 0 <= i < |ops| ==> SparesPartners(Run(c, ops[..i]), ops[i])
    ensures Loyal(Run(c, ops))
    decreases |ops|
  {
    if ops != [] {
      var before := ops[..|ops| - 1];
      forall i | 0 <= i < |before| ensures SparesPartners(Run(c, before[..i]), before[i]) {
        assert before[..i] == ops[..i];
      }
      LoverIsMutual(c, before);
      StepKeepsLoyal(Run(c, before), ops[|ops| - 1]);
    }
  }

  /** An NPC break keeps lovership mutual exactly when what it removes is not a partner: an unknown
      name removes the last entry, whoever it is about. */
  lemma NpcBreakIsMutualIff(c: Court, op: Op)
    requires Loyal(c) && op.Break? && op.target < 0
    ensures Loyal(Step(c, op)) <==> SparesPartners(c, op)
  {
    hide Good, Tie, AtMostFive, VowIn, NpcBroken, Broken, StoredAs;
    if SparesPartners(c, op) {
      StepKeepsLoyal(c, op);
    } else {
      var l := c.now[op.src];
      var i := NamedOrLast(l, op.npcName.value).value;
      var other := l[i].who;
      NpcBreakTakesOne(c, op.src, op.npcName.value);
      PartnerIsVow(c, op.src, i);
      assert VowOf(c, other, op.src).Some?;
      assert VowOf(Step(c, op), other, op.src).Some? && VowOf(Step(c, op), op.src, other).None?;
    }
  }

  lemma OneInList(h: Heart, g: Heart, p: int, now: int)
    requires Whom(h) == Some(p) && g.Partner? && g.who == p && !g.offered
    ensures Courted([], p, now) == [Asked(p)] && Tie([], p) == None && Tie([h], p) == Some(h)
    ensures Wed([h], p, g) == [g] == Wed([], p, g) && Clean([g]) == [g]
  {
    assert [h][..0] == [] && [g][..0] == [];
    assert IndexOf([], p) == None && IndexOf([h], p) == Some(0);
    assert [] + [Asked(p)] == [Asked(p)] && [] + [g] == [g] && [h][0 := g] == [g];
  }

  /** Two new members, 1 and 2, begin to date. */
  lemma DatingPair(c: Court, e: Env)
    requires c.now == map[1 := [], 2 := []] && c.saved == c.now && e.room == Some({1, 2}) && !e.blacklisted
    ensures
      var c' := Step(Step(c, Request(1, 2, Propose, e)), Request(2, 1, Accept, e));
      && c'.now == map[1 := [Partner(2, e.srcName, e.now, 0, false)],
                       2 := [Partner(1, e.targetName, e.now, 0, false)]]
      && c'.saved == c'.now
  {
    hide Step;
    FirstOffer(c, e);
    FirstAcceptance(Step(c, Request(1, 2, Propose, e)), e);
  }

  lemma FirstOffer(c: Court, e: Env)
    requires c.now == map[1 := [], 2 := []] && e.room == Some({1, 2}) && !e.blacklisted
    ensures Step(c, Request(1, 2, Propose, e)) == c.(now := map[1 := [], 2 := [Asked(1)]])
  {
    hide Wed, Tie, IndexOf, Clean, Courted, NextStage;
    OneInList(Asked(1), Partner(1, e.targetName, e.now, 0, false), 1, e.now);
    assert 2 in e.room.value;
    assert Meets(c, 1, 2, e);
  }

  lemma FirstAcceptance(c: Court, e: Env)
    requires c.now == map[1 := [], 2 := [Asked(1)]] && c.saved == map[1 := [], 2 := []]
    requires e.room == Some({1, 2}) && !e.blacklisted
    ensures
      var c' := Step(c, Request(2, 1, Accept, e));
      && c'.now == map[1 := [Partner(2, e.srcName, e.now, 0, false)],
                       2 := [Partner(1, e.targetName, e.now, 0, false)]]
      && c'.saved == c'.now
  {
    hide Wed, Tie, IndexOf, Clean, Courted;
    var h, g := Partner(1, e.targetName, e.now, 0, false), Partner(2, e.srcName, e.now, 0, false);
    OneInList(Asked(1), h, 1, e.now);
    OneInList(Asked(2), g, 2, e.now);
    assert 1 in e.room.value;
    assert NextStage(c, 2, 1, e) == Some(0);
  }

  /** It does happen: one of a dating pair names an NPC that is not there, and only the other is left
      with a partner. */
  lemma NpcBreakHitsPartner(c: Court, g: Heart, h: Heart, now: int)
    requires g.Partner? && h.Partner? && g.who == 2 && h.who == 1 && h.name != "NPC-Nobody"
    requires c.now == map[1 := [g], 2 := [h]] && c.saved == c.now
    ensures
      var c' := Step(c, Break(2, -1, Some("NPC-Nobody"), now));
      VowOf(c', 2, 1).None? && VowOf(c', 1, 2) == VowOf(c, 1, 2) == Some(Vow(g.stage, g.start))
  {
    assert [g][..0] == [] && IndexOf([g], 2) == Some(0);
    assert NamedOrLast([h], "NPC-Nobody") == Some(0) && Removed([h], 0) == [];
  }

  lemma PartnerIsVow(c: Court, m: int, i: nat)
    requires Shaped(c) && m in c.now && i < |c.now[m]| && c.now[m][i].Partner?
    ensures c.now[m][i].who != m && VowOf(c, m, c.now[m][i].who).Some?
  {
    assert StoredAs(Effective(c, m), c.saved[m], m);
    TieIff(c.now[m], m, i, c.now[m][i].who);
  }

  // ----- NPC lovers and the store -----

  /** The steps that store the list of a member who is online. */
  predicate StoresList(c: Court, op: Op, m: int) {
    match op
    case Request(src, target, action, env) =>
      action == Accept && NextStage(c, src, target, env).Some? && (m == src || m == target)
    case Break(src, target, npcName, now) =>
      if target < 0 then npcName.Some? && m == src && src in c.now
      else MayBreak(c, src, target, now) && (m == src || m == target)
    case TakeNpc(member, name, keys) => m == member && MayTakeNpc(c, m, name) && !WrittenLater(keys)
    case _ => false
  }

  lemma {:induction false} NpcInClean(l: seq<Heart>, name: string)
    ensures Npc(name) in Clean(l) <==> Npc(name) in l
  {
    if l != [] {
      var front, last := l[..|l| - 1], l[|l| - 1];
      assert l == front + [last];
      NpcInClean(front, name);
    }
  }

  lemma CourtedKeepsNpcs(l: seq<Heart>, src: int, now: int, name: string)
    requires Npc(name) in l
    ensures Npc(name) in Courted(l, src, now)
  {
    var k :| 0 <= k < |l| && l[k] == Npc(name);
    assert Courted(l, src, now)[k] == l[k];
  }

  /** A step either stores the list of a member online, as it then is, or leaves the stored list as it is and
      every NPC in memory. */
  lemma ListOrStore(c: Court, op: Op, m: int)
    requires Shaped(c) && m in c.now && op != Logout(m)
    ensures
      var c' := Step(c, op);
      && m in c.saved && m in c'.now && m in c'.saved
      && (StoresList(c, op, m) ==> c'.saved[m] == Clean(c'.now[m]))
      && (!StoresList(c, op, m) ==>
            c'.saved[m] == c.saved[m] && forall n :: Npc(n) in c.now[m] ==> Npc(n) in c'.now[m])
  {
    hide Clean, Courted, Tie, Good, Forsaken, Wed, WrittenLater;
    assert StoredAs(Effective(c, m), c.saved[m], m);
    if op.Request? && op.action == Propose && m == op.target {
      forall n | Npc(n) in c.now[m] ensures Npc(n) in Courted(c.now[m], op.src, op.env.now) {
        CourtedKeepsNpcs(c.now[m], op.src, op.env.now, n);
      }
    } else if op.Break? && op.target >= 0 && MayBreak(c, op.src, op.target, op.now) {
      NotSelf(c, op.src, op.target);
    } else if op.Request? && StoresList(c, op, m) {
      BindingStores(c, op.src, op.target, NextStage(c, op.src, op.target, op.env).value, op.env);
    } else if op.TakeNpc? && m == op.member {
      TakingKeepsNpcs(c, m, op.name, op.keys);
    }
  }

  lemma BindingStores(c: Court, src: int, target: int, stage: int, e: Env)
    requires src in c.now && target in c.now
    ensures
      var c' := Bound(c, src, target, stage, e);
      c'.saved[src] == Clean(c'.now[src]) && c'.saved[target] == Clean(c'.now[target])
  {
    hide Clean, Wed;
  }

  lemma TakingKeepsNpcs(c: Court, m: int, name: string, keys: set<string>)
    requires m in c.now && m in c.saved
    ensures
      var c' := Step(c, TakeNpc(m, name, keys));
      && m in c'.now && m in c'.saved
      && (MayTakeNpc(c, m, name) && !WrittenLater(keys) ==> c'.saved[m] == Clean(c'.now[m]))
      && (!(MayTakeNpc(c, m, name) && !WrittenLater(keys)) ==> c'.saved[m] == c.saved[m])
      && forall n :: Npc(n) in c.now[m] ==> Npc(n) in c'.now[m]
  {
    hide Clean, MayTakeNpc, WrittenLater;
    var l := c.now[m] + [Npc(name)];
    CleanTwice(l);
    forall n | Npc(n) in c.now[m] ensures Npc(n) in Clean(l) {
      assert Npc(n) in l;
      NpcInClean(l, n);
    }
  }

  /** No NPC is in the stored list only. */
  ghost predicate NpcsInMemory(c: Court) {
    forall m, n :: m in c.now && m in c.saved && Npc(n) in c.saved[m] ==> Npc(n) in c.now[m]
  }

  lemma StepKeepsNpcsInMemory(c: Court, op: Op)
    requires Shaped(c) && NpcsInMemory(c)
    ensures NpcsInMemory(Step(c, op))
  {
    hide Clean, Shaped, StoresList;
    var c' := Step(c, op);
    forall m, n | m in c'.now && m in c'.saved && Npc(n) in c'.saved[m] ensures Npc(n) in c'.now[m] {
      if m in c.now && op != Logout(m) {
        ListOrStore(c, op, m);
        NpcInClean(c'.now[m], n);
      } else {
        NewlyOnline(c, op, m);
      }
    }
  }

  /** Who comes online has in memory what is stored. */
  lemma NewlyOnline(c: Court, op: Op, m: int)
    requires Shaped(c) && m in Step(c, op).now && (m !in c.now || op == Logout(m))
    ensures m in Step(c, op).saved && Step(c, op).now[m] == Step(c, op).saved[m]
  {
    hide Clean, Courted, NextStage, Tie, Forsaken, Wed, WrittenLater, StoredAs;
  }

  lemma {:induction false} RunKeepsNpcsInMemory(c: Court, ops: seq<Op>)
    requires Shaped(c) && NpcsInMemory(c)
    ensures NpcsInMemory(Run(c, ops))
    decreases |ops|
  {
    hide Shaped, NpcsInMemory, Step;
    if ops != [] {
      var before := ops[..|ops| - 1];
      RunKeepsNpcsInMemory(c, before);
      RunKeepsShaped(c, before);
      StepKeepsNpcsInMemory(Run(c, before), ops[|ops| - 1]);
    }
  }

  /** Some step of the run stored the list of `m`. */
  ghost predicate StoredDuring(c: Court, ops: seq<Op>, m: int) {
    exists i :: 0 <= i < |ops| && StoresList(Run(c, ops[..i]), ops[i], m)
  }

  /** The run begins with `m` taking the NPC, and all through it `m` is online and has the NPC. */
  ghost predicate HasNpcThroughout(c: Court, ops: seq<Op>, m: int, name: string) {
    && ops != [] && ops[0].TakeNpc? && ops[0].member == m && ops[0].name == name && MayTakeNpc(c, m, name)
    && forall i :: 1 <= i <= |ops| ==> m in Run(c, ops[..i]).now && Npc(name) in Run(c, ops[..i]).now[m]
  }

  /** An NPC lover outlives the session exactly when some step since it was taken, the taking included, stored
      the member's list; it is lost at a logout before that. */
  lemma NpcOutlivesSessionIff(c: Court, ops: seq<Op>, m: int, name: string)
    requires Shaped(c) && NpcsInMemory(c) && HasNpcThroughout(c, ops, m, name)
    ensures
      var c' := Run(c, ops + [Logout(m)]);
      m in c'.saved && m !in c'.now && (Npc(name) in c'.saved[m] <==> StoredDuring(c, ops, m))
  {
    hide StoredDuring, HasNpcThroughout, Shaped, NpcsInMemory;
    assert (ops + [Logout(m)])[..|ops|] == ops;
    NpcStoredIff(c, ops, m, name);
  }

  lemma {:induction false} NpcStoredIff(c: Court, ops: seq<Op>, m: int, name: string)
    requires Shaped(c) && NpcsInMemory(c) && HasNpcThroughout(c, ops, m, name)
    ensures m in Run(c, ops).saved && (Npc(name) in Run(c, ops).saved[m] <==> StoredDuring(c, ops, m))
    decreases |ops|
  {
    hide Shaped, Step, StoresList, Clean;
    var n := |ops| - 1;
    var before := Run(c, ops[..n]);
    assert ops[..|ops|] == ops;
    assert m in Run(c, ops).now;
    RunKeepsShaped(c, ops[..n]);
    if n == 0 {
      FirstTaken(c, ops[0], m, name);
      assert ops[..0] == [];
    } else {
      HasNpcBefore(c, ops, m, name);
      NpcStoredIff(c, ops[..n], m, name);
      NotLogout(before, ops[n], m);
      StoredDuringSnoc(c, ops, m);
    }
    ListOrStore(before, ops[n], m);
    NpcInClean(Run(c, ops).now[m], name);
  }

  lemma FirstTaken(c: Court, op: Op, m: int, name: string)
    requires Shaped(c) && NpcsInMemory(c) && op.TakeNpc? && op.name == name && MayTakeNpc(c, m, name)
    ensures m in c.saved && Npc(name) !in c.saved[m]
  {
    assert m in c.saved;
    assert !Named(Npc(name), name) || Npc(name) !in c.now[m];
  }

  lemma HasNpcBefore(c: Court, ops: seq<Op>, m: int, name: string)
    requires HasNpcThroughout(c, ops, m, name) && |ops| > 1
    ensures HasNpcThroughout(c, ops[..|ops| - 1], m, name)
  {
    hide Run, MayTakeNpc;
    var before := ops[..|ops| - 1];
    forall i | 1 <= i <= |before| ensures m in Run(c, before[..i]).now && Npc(name) in Run(c, before[..i]).now[m] {
      assert before[..i] == ops[..i];
    }
  }

  lemma NotLogout(c: Court, op: Op, m: int)
    requires m in Step(c, op).now
    ensures op != Logout(m)
  {
  }

  lemma StoredDuringSnoc(c: Court, ops: seq<Op>, m: int)
    requires ops != []
    ensures
      var n := |ops| - 1;
      StoredDuring(c, ops, m) <==> StoredDuring(c, ops[..n], m) || StoresList(Run(c, ops[..n]), ops[n], m)
  {
    hide Run, StoresList;
    var n := |ops| - 1;
    assert forall i :: 0 <= i < n ==> ops[..n][..i] == ops[..i] && ops[..n][i] == ops[i];
  }

  // ----- How a tie comes about -----

  function TieOf(c: Court, m: int, p: int): Option<Heart> {
    if m in c.saved then Tie(Effective(c, m), p) else None
  }

  predicate Asks(op: Op, from: int, to: int) {
    op.Request? && op.src == from && op.target == to && op.action == Propose
  }

  predicate Says(op: Op, from: int, to: int) {
    op.Request? && op.src == from && op.target == to && op.action == Accept
  }

  function Clock(op: Op): int {
    if op.Request? then op.env.now else if op.Break? then op.now else 0
  }

  /** `after` is the partnership that accepting the offer in `t` at `now` gives. */
  predicate Answers(t: Option<Heart>, after: Option<Heart>, now: int) {
    && t.Some? && after.Some? && after.value.Partner? && !after.value.offered && after.value.start == now
    && ((t.value.Asked? && after.value.stage == 0)
        || (t.value.Partner? && t.value.offered && after.value.stage == t.value.stage + 1))
  }

  /** `after` is what a proposal at `now` makes of the tie `before` with the member who proposes. */
  predicate Invites(before: Option<Heart>, after: Option<Heart>, now: int) {
    && after.Some?
    && (after.value.Asked? || (after.value.Partner? && after.value.offered))
    && (if after.value.Asked? then before.None?
        else before == Some(Settled(after.value)) && after.value.start + LOVERSHIP_DELAY_MS <= now)
  }

  /** The ways in which one step may change what `m` has with `p`. */
  predicate Moves(op: Op, m: int, p: int, before: Option<Heart>, other: Option<Heart>, after: Option<Heart>) {
    || after == before || after.None? || after == Stored(before)
    || (Asks(op, p, m) && Invites(before, after, Clock(op)))
    || (Says(op, m, p) && Answers(before, after, Clock(op)))
    || (Says(op, p, m) && Answers(other, after, Clock(op)))
  }

  lemma ProposalMoves(c: Court, op: Op, m: int, p: int)
    requires Shaped(c) && op.Request? && op.action == Propose
    ensures Moves(op, m, p, TieOf(c, m, p), TieOf(c, p, m), TieOf(Step(c, op), m, p))
  {
    if m == op.target && m in c.now && Meets(c, op.src, op.target, op.env) {
      var l, src, now := c.now[m], op.src, op.env.now;
      assert StoredAs(Effective(c, m), c.saved[m], m);
      var i := IndexOf(l, src);
      if i.None? {
        WedTies(l, m, src, Asked(src));
      } else if l[i.value].Partner? && l[i.value].stage in {0, 1} {
        WedTies(l, m, src, l[i.value].(offered := true));
      }
      hide Good;
    }
  }

  lemma AcceptanceMoves(c: Court, op: Op, m: int, p: int)
    requires Shaped(c) && op.Request? && op.action == Accept
    ensures Moves(op, m, p, TieOf(c, m, p), TieOf(c, p, m), TieOf(Step(c, op), m, p))
  {
    hide Good, Clean, Wed, Tie;
    var src, target, e := op.src, op.target, op.env;
    if NextStage(c, src, target, e).Some? {
      StageIsValid(c, src, target, e);
      var stage := NextStage(c, src, target, e).value;
      assert StoredAs(Effective(c, src), c.saved[src], src);
      assert StoredAs(Effective(c, target), c.saved[target], target);
      var h := Partner(target, e.targetName, e.now, stage, false);
      var g := Partner(src, e.srcName, e.now, stage, false);
      WedTies(c.now[src], src, target, h);
      WedTies(c.now[target], target, src, g);
      var c' := Step(c, op);
      assert c' == Bound(c, src, target, stage, e);
      assert TieOf(c', src, p) == if p == target then Some(h) else TieOf(c, src, p);
      assert TieOf(c', target, p) == if p == src then Some(g) else TieOf(c, target, p);
      assert Answers(TieOf(c, src, target), Some(h), e.now) && Answers(TieOf(c, src, target), Some(g), e.now);
    }
  }

  lemma BreakMoves(c: Court, op: Op, m: int, p: int)
    requires Shaped(c) && op.Break?
    ensures Moves(op, m, p, TieOf(c, m, p), TieOf(c, p, m), TieOf(Step(c, op), m, p))
  {
    hide Good, Clean, Tie, Forsaken;
    var src, target := op.src, op.target;
    if src in c.now {
      assert StoredAs(Effective(c, src), c.saved[src], src);
      if target < 0 {
        if op.npcName.Some? {
          var i := NamedOrLast(c.now[src], op.npcName.value);
          if i.Some? {
            TieRemoved(c.now[src], src, i.value, p);
          } else {
            NothingInEmpty(p);
          }
        }
      } else if MayBreak(c, src, target, op.now) {
        NotSelf(c, src, target);
        ForsakenTies(c.now[src], src, target);
        if target in c.saved {
          assert StoredAs(Effective(c, target), c.saved[target], target);
          ForsakenTies(Effective(c, target), target, src);
        }
      }
    }
  }

  lemma NothingInEmpty(p: int)
    ensures Tie([], p).None?
  {
  }

  lemma OtherMoves(c: Court, op: Op, m: int, p: int)
    requires Shaped(c) && !op.Request? && !op.Break?
    ensures Moves(op, m, p, TieOf(c, m, p), TieOf(c, p, m), TieOf(Step(c, op), m, p))
  {
    hide Good, Clean, Tie;
    NothingInEmpty(p);
    if m in c.saved {
      var l := Effective(c, m);
      assert StoredAs(l, c.saved[m], m);
      if op.TakeNpc? && m in c.now {
        GoodSnoc(l, Npc(op.name), m);
        TieSnoc(l, Npc(op.name), p);
        TieClean(l + [Npc(op.name)], m, p);
      }
    }
  }

  lemma StepMoves(c: Court, op: Op, m: int, p: int)
    requires Shaped(c)
    ensures Moves(op, m, p, TieOf(c, m, p), TieOf(c, p, m), TieOf(Step(c, op), m, p))
  {
    hide Moves, Shaped, TieOf;
    if op.Request? && op.action == Propose {
      ProposalMoves(c, op, m, p);
    } else if op.Request? && op.action == Accept {
      AcceptanceMoves(c, op, m, p);
    } else if op.Break? {
      BreakMoves(c, op, m, p);
    } else if !op.Request? {
      OtherMoves(c, op, m, p);
    } else {
      QueryMoves(c, op, m, p);
    }
  }

  lemma QueryMoves(c: Court, op: Op, m: int, p: int)
    requires op.Request? && op.action == Query
    ensures Moves(op, m, p, TieOf(c, m, p), TieOf(c, p, m), TieOf(Step(c, op), m, p))
  {
  }

  predicate Rising(w: seq<nat>, bound: nat) {
    && (forall i :: 0 <= i < |w| ==> w[i] < bound)
    && (forall i, j :: 0 <= i < j < |w| ==> w[i] < w[j])
  }

  /** The `k`th offer and its acceptance, from opposite parties. */
  predicate Round(ops: seq<Op>, w: seq<nat>, k: nat, a: int, b: int)
    requires 2 * k + 1 < |w| && Rising(w, |ops|)
  {
    || (Asks(ops[w[2 * k]], a, b) && Says(ops[w[2 * k + 1]], b, a))
    || (Asks(ops[w[2 * k]], b, a) && Says(ops[w[2 * k + 1]], a, b))
  }

  /** The positions in a run of the requests that brought `a` and `b` to `stage` at `start`: an offer
      and its acceptance for each stage so far, each offer at least the delay after the stage before. */
  ghost predicate Courtship(ops: seq<Op>, a: int, b: int, stage: int, start: int, w: seq<nat>) {
    && 0 <= stage && |w| == 2 * stage + 2 && Rising(w, |ops|)
    && (forall k: nat :: 0 <= k <= stage ==> Round(ops, w, k, a, b))
    && (forall k :: 0 <= k < stage ==>
          Clock(ops[w[2 * k + 1]]) + LOVERSHIP_DELAY_MS <= Clock(ops[w[2 * k + 2]]))
    && Clock(ops[w[2 * stage + 1]]) == start
  }

  /** The requests behind the tie `t` of `m` with `p`; a pending offer is one more, made by `p` to `m`,
      and for the later stages made at least the delay after the present one began. */
  ghost predicate Made(ops: seq<Op>, m: int, p: int, t: Option<Heart>, w: seq<nat>) {
    t.Some? ==>
      match t.value
      case Npc(_) => false
      case Asked(_) => |w| == 1 && Rising(w, |ops|) && Asks(ops[w[0]], p, m)
      case Partner(_, _, start, stage, offered) =>
        if !offered then Courtship(ops, m, p, stage, start, w)
        else
          && w != [] && Rising(w, |ops|) && Courtship(ops, m, p, stage, start, w[..|w| - 1])
          && Asks(ops[w[|w| - 1]], p, m) && start + LOVERSHIP_DELAY_MS <= Clock(ops[w[|w| - 1]])
  }

  lemma MadeLater(ops: seq<Op>, n: nat, m: int, p: int, t: Option<Heart>, w: seq<nat>)
    requires n <= |ops| && Made(ops[..n], m, p, t, w)
    ensures Made(ops, m, p, t, w)
  {
    if t.Some? && t.value.Partner? {
      CourtshipLater(ops, n, m, p, t.value.stage, t.value.start, if t.value.offered then w[..|w| - 1] else w);
    }
  }

  lemma CourtshipLater(ops: seq<Op>, n: nat, m: int, p: int, stage: int, start: int, w: seq<nat>)
    requires n <= |ops| && Courtship(ops[..n], m, p, stage, start, w)
    ensures Courtship(ops, m, p, stage, start, w) && Courtship(ops, p, m, stage, start, w)
  {
    forall k: nat | 0 <= k <= stage ensures Round(ops, w, k, m, p) && Round(ops, w, k, p, m) {
      assert Round(ops[..n], w, k, m, p);
    }
  }

  /** One more offer and its acceptance, late enough, bring a courtship to the next stage. */
  lemma CourtshipGrows(ops: seq<Op>, m: int, p: int, stage: int, start: int, v: seq<nat>, now: int)
    requires ops != [] && v != [] && Rising(v, |ops| - 1) && Courtship(ops, m, p, stage, start, v[..|v| - 1])
    requires Asks(ops[v[|v| - 1]], p, m) && start + LOVERSHIP_DELAY_MS <= Clock(ops[v[|v| - 1]])
    requires Says(ops[|ops| - 1], m, p) && Clock(ops[|ops| - 1]) == now
    ensures Courtship(ops, m, p, stage + 1, now, v + [|ops| - 1])
  {
    var u, w := v[..|v| - 1], v + [|ops| - 1];
    assert Rising(w, |ops|);
    forall k: nat | 0 <= k <= stage + 1 ensures Round(ops, w, k, m, p) {
      if k <= stage {
        assert Round(ops, u, k, m, p);
      }
    }
    forall k | 0 <= k < stage + 1
      ensures Clock(ops[w[2 * k + 1]]) + LOVERSHIP_DELAY_MS <= Clock(ops[w[2 * k + 2]])
    {
      if k < stage {
        assert w[2 * k + 1] == u[2 * k + 1] && w[2 * k + 2] == u[2 * k + 2];
      }
    }
  }

  /** Accepting the offer behind `t`, held by `m` from `p`, completes one more round. */
  lemma MadeByAnswer(ops: seq<Op>, m: int, p: int, t: Option<Heart>, after: Option<Heart>, v: seq<nat>)
    requires ops != [] && Made(ops[..|ops| - 1], m, p, t, v)
    requires Says(ops[|ops| - 1], m, p) && Answers(t, after, Clock(ops[|ops| - 1]))
    ensures Made(ops, m, p, after, v + [|ops| - 1]) && Made(ops, p, m, after, v + [|ops| - 1])
  {
    var n := |ops| - 1;
    var w := v + [n];
    if t.value.Partner? {
      hide Courtship, Round;
      CourtshipLater(ops, n, m, p, t.value.stage, t.value.start, v[..|v| - 1]);
      CourtshipGrows(ops, m, p, t.value.stage, t.value.start, v, after.value.start);
    } else {
      assert Round(ops, w, 0, m, p);
      assert Courtship(ops, m, p, 0, after.value.start, w);
    }
    assert Courtship(ops, m, p, after.value.stage, after.value.start, w);
    assert ops[..|ops|] == ops;
    CourtshipLater(ops, |ops|, m, p, after.value.stage, after.value.start, w);
  }

  lemma MadeByInvitation(ops: seq<Op>, m: int, p: int, t: Option<Heart>, after: Option<Heart>, v: seq<nat>)
    requires ops != [] && Made(ops[..|ops| - 1], m, p, t, v)
    requires Asks(ops[|ops| - 1], p, m) && Invites(t, after, Clock(ops[|ops| - 1]))
    ensures Made(ops, m, p, after, if t.None? then [|ops| - 1] else v + [|ops| - 1])
  {
    if t.Some? {
      var n := |ops| - 1;
      MadeLater(ops, n, m, p, t, v);
      assert (v + [n])[..|v|] == v;
      assert Courtship(ops[..n], m, p, t.value.stage, t.value.start, v);
      assert Rising(v + [n], |ops|);
      hide Courtship;
    }
  }

  lemma MadeByStep(c: Court, ops: seq<Op>, m: int, p: int, v: seq<nat>, u: seq<nat>) returns (w: seq<nat>)
    requires ops != [] && Shaped(c)
    requires Made(ops[..|ops| - 1], m, p, TieOf(c, m, p), v)
    requires Made(ops[..|ops| - 1], p, m, TieOf(c, p, m), u)
    ensures Made(ops, m, p, TieOf(Step(c, ops[|ops| - 1]), m, p), w)
  {
    hide Shaped, TieOf, Step, Made, Invites, Answers;
    var n := |ops| - 1;
    var op := ops[n];
    var before, other, after := TieOf(c, m, p), TieOf(c, p, m), TieOf(Step(c, op), m, p);
    StepMoves(c, op, m, p);
    MadeLater(ops, n, m, p, before, v);
    if after.None? {
      w := [];
      NothingIsMade(ops, m, p, w);
    } else if after == before {
      w := v;
    } else if after == Stored(before) {
      w := if before.value.Partner? && before.value.offered then v[..|v| - 1] else v;
      StoredIsMade(ops, m, p, before, v);
    } else if Asks(op, p, m) && Invites(before, after, Clock(op)) {
      w := if before.None? then [n] else v + [n];
      MadeByInvitation(ops, m, p, before, after, v);
    } else if Says(op, m, p) && Answers(before, after, Clock(op)) {
      w := v + [n];
      MadeByAnswer(ops, m, p, before, after, v);
    } else {
      w := u + [n];
      MadeByAnswer(ops, p, m, other, after, u);
    }
  }

  lemma NothingIsMade(ops: seq<Op>, m: int, p: int, w: seq<nat>)
    ensures Made(ops, m, p, None, w)
  {
  }

  lemma StoredIsMade(ops: seq<Op>, m: int, p: int, t: Option<Heart>, w: seq<nat>)
    requires t.Some? && Made(ops, m, p, t, w)
    ensures t.value.Partner? && t.value.offered ==> w != []
    ensures Made(ops, m, p, Stored(t), if t.value.Partner? && t.value.offered then w[..|w| - 1] else w)
  {
  }

  lemma StepKeepsShaped(c: Court, op: Op)
    requires Shaped(c)
    ensures Shaped(Step(c, op))
  {
    hide VowIn, Tie, Good, Bound, Broken, NpcBroken, NpcTaken, Courted, VowOf, WrittenLater;
    match op
    case Request(src, target, action, env) =>
      if Meets(c, src, target, env) {
        if action == Propose {
          OfferKeepsVows(c, src, target, env.now);
        } else if action == Accept && NextStage(c, src, target, env).Some? {
          StageIsValid(c, src, target, env);
          BoundIsMutual(c, src, target, NextStage(c, src, target, env).value, env);
        }
      }
    case Break(src, target, npcName, now) =>
      if target < 0 && npcName.Some? && src in c.now {
        NpcBreakTakesOne(c, src, npcName.value);
      } else if MayBreak(c, src, target, now) {
        NotSelf(c, src, target);
        BreakIsMutual(c, src, target);
      }
    case TakeNpc(m, name, keys) =>
      if m in c.now {
        NpcKeepsVows(c, m, name, WrittenLater(keys));
      }
    case Login(m) => SessionKeepsVows(c, m, op);
    case Logout(m) => SessionKeepsVows(c, m, op);
    case Join(m) => SessionKeepsVows(c, m, op);
  }

  lemma {:induction false} RunKeepsShaped(c: Court, ops: seq<Op>)
    requires Shaped(c)
    ensures Shaped(Run(c, ops))
    decreases |ops|
  {
    if ops != [] {
      RunKeepsShaped(c, ops[..|ops| - 1]);
      StepKeepsShaped(Run(c, ops[..|ops| - 1]), ops[|ops| - 1]);
    }
  }

  /** Whatever tie a member has at the end of a run that began without one was made, round by round, by
      requests of that run from opposite parties, NPC breaks or not. */
  lemma {:induction false} EveryTieIsMade(c: Court, ops: seq<Op>, m: int, p: int) returns (w: seq<nat>)
    requires Shaped(c) && TieOf(c, m, p).None? && TieOf(c, p, m).None?
    ensures Made(ops, m, p, TieOf(Run(c, ops), m, p), w)
    decreases |ops|
  {
    w := [];
    if ops != [] {
      hide TieOf, Made, Shaped, Step;
      var before := ops[..|ops| - 1];
      RunKeepsShaped(c, before);
      var v := EveryTieIsMade(c, before, m, p);
      var u := EveryTieIsMade(c, before, p, m);
      w := MadeByStep(Run(c, before), ops, m, p, v, u);
    }
  }

  /** With a clock that never runs back, a wedding comes at least two delays after its first dating offer
      was accepted, and an engagement at least one. */
  lemma StagesTakeTheDelay(c: Court, ops: seq<Op>, m: int, p: int) returns (w: seq<nat>)
    requires Shaped(c) && TieOf(c, m, p).None? && TieOf(c, p, m).None?
    requires VowOf(Run(c, ops), m, p).Some?
    requires forall i, j :: 0 <= i < j < |ops| && ops[i].Request? && ops[j].Request? ==>
      Clock(ops[i]) <= Clock(ops[j])
    ensures
      var vow := VowOf(Run(c, ops), m, p).value;
      Courtship(ops, m, p, vow.stage, vow.start, w)
      && Clock(ops[w[1]]) + vow.stage * LOVERSHIP_DELAY_MS <= vow.start
  {
    var v := EveryTieIsMade(c, ops, m, p);
    RunKeepsShaped(c, ops);
    var t := TieOf(Run(c, ops), m, p).value;
    w := if t.offered then v[..|v| - 1] else v;
    DelaysAddUp(ops, m, p, t.stage, t.start, w, t.stage);
  }

  lemma {:induction false} DelaysAddUp(ops: seq<Op>, m: int, p: int, stage: int, start: int, w: seq<nat>, k: nat)
    requires Courtship(ops, m, p, stage, start, w) && k <= stage
    requires forall i, j :: 0 <= i < j < |ops| && ops[i].Request? && ops[j].Request? ==>
      Clock(ops[i]) <= Clock(ops[j])
    ensures Clock(ops[w[1]]) + k * LOVERSHIP_DELAY_MS <= Clock(ops[w[2 * k + 1]])
  {
    if k > 0 {
      DelaysAddUp(ops, m, p, stage, start, w, k - 1);
      assert Round(ops, w, k, m, p);
      assert w[2 * k] < w[2 * k + 1];
    }
  }

  // ----- What changes an entry, by its fields -----

  /** Both are online and in one room, and `from`, not on the other's black list, makes a request of that kind
      about `to`. */
  predicate Faces(c: Court, op: Op, from: int, to: int, action: Action) {
    && op.Request? && op.src == from && op.target == to && op.action == action
    && from in c.now && to in c.now && from != to
    && op.env.room.Some? && to in op.env.room.value && !op.env.blacklisted
  }

  predicate Knows(l: seq<Heart>, p: int) {
    exists h :: h in l && (h == Asked(p) || (h.Partner? && h.who == p))
  }

  lemma KnowsIff(l: seq<Heart>, p: int)
    ensures Knows(l, p) <==> Tie(l, p).Some?
  {
    if Knows(l, p) {
      var k :| 0 <= k < |l| && (l[k] == Asked(p) || (l[k].Partner? && l[k].who == p));
    }
  }

  lemma EntryIsTie(l: seq<Heart>, m: int, h: Heart, p: int)
    requires Good(l, m) && Whom(h) == Some(p)
    ensures h in l <==> Tie(l, p) == Some(h)
  {
    if h in l {
      var k :| 0 <= k < |l| && l[k] == h;
      TieIff(l, m, k, p);
    }
  }

  /** A partner of one who may still take in a partner, or knows the other already, may propose. */
  predicate MayPropose(c: Court, from: int, to: int)
    requires from in c.now
  {
    |c.now[from]| < 5 || Knows(c.now[from], to)
  }

  /** Dating is offered to a stranger exactly by a proposal, and only while both lists have room. */
  lemma DatingOfferedIff(c: Court, op: Op, m: int, p: int)
    requires Shaped(c) && m in c.now && !Knows(c.now[m], p)
    ensures m in Step(c, op).now && Asked(p) in Step(c, op).now[m] <==>
      Faces(c, op, p, m, Propose) && |c.now[m]| < 5 && MayPropose(c, p, m)
  {
    hide Good, Moves, NextStage, Tie, Bound, Broken, NpcBroken, NpcTaken, Knows;
    var c' := Step(c, op);
    KnowsIff(c.now[m], p);
    if m in c'.now {
      OnlineTie(c, op, m, Asked(p), p);
    }
    if Faces(c, op, p, m, Propose) {
      KnowsIff(c.now[p], m);
      StrangersCourted(c.now[m], p, op.env.now);
    }
    if m in c'.now && Asked(p) in c'.now[m] {
      AskedOnlyBy(c, op, m, p);
    }
  }

  lemma StrangersCourted(l: seq<Heart>, p: int, now: int)
    requires Tie(l, p).None?
    ensures Asked(p) in Courted(l, p, now) <==> |l| < 5
  {
    var l' := Courted(l, p, now);
    assert |l| < 5 ==> l'[|l|] == Asked(p);
    assert forall k :: 0 <= k < |l| ==> Whom(l[k]) != Some(p);
  }

  lemma AskedOnlyBy(c: Court, op: Op, m: int, p: int)
    requires Shaped(c) && m in c.now && Tie(c.now[m], p).None? && m in Step(c, op).now
    requires TieOf(Step(c, op), m, p) == Some(Asked(p))
    ensures Asks(op, p, m)
  {
    hide Step, Tie;
    StepMoves(c, op, m, p);
    assert TieOf(c, m, p).None?;
  }

  /** What the list of a member who is online has about another. */
  lemma OnlineTie(c: Court, op: Op, m: int, h: Heart, p: int)
    requires Shaped(c) && m in Step(c, op).now && Whom(h) == Some(p)
    ensures h in Step(c, op).now[m] <==> TieOf(Step(c, op), m, p) == Some(h)
  {
    hide Step, Tie, Good;
    StepKeepsShaped(c, op);
    var c' := Step(c, op);
    assert StoredAs(Effective(c', m), c'.saved[m], m);
    EntryIsTie(c'.now[m], m, h, p);
  }

  /** The next step of a partnership, from dating to engagement or from engagement to marriage, is offered
      exactly by the partner's proposal seven days after the last or later. */
  lemma NextOfferedIff(c: Court, op: Op, m: int, h: Heart)
    requires Shaped(c) && m in c.now && h in c.now[m] && h.Partner? && h.stage in {0, 1} && !h.offered
    ensures m in Step(c, op).now && h.(offered := true) in Step(c, op).now[m] <==>
      && Faces(c, op, h.who, m, Propose) && MayPropose(c, h.who, m)
      && h.start + 7 * 24 * 60 * 60 * 1000 <= op.env.now
  {
    hide Good, Moves, NextStage, Tie, Bound, Broken, NpcBroken, NpcTaken, Knows;
    var c', p, h' := Step(c, op), h.who, h.(offered := true);
    TieOfEntry(c, m, h);
    if m in c'.now {
      OnlineTie(c, op, m, h', p);
    }
    if Faces(c, op, p, m, Propose) {
      KnowsIff(c.now[p], m);
      CourtedPartner(c.now[m], m, p, op.env.now);
    }
    if m in c'.now && h' in c'.now[m] {
      OfferedOnlyBy(c, op, m, h);
    }
  }

  lemma TieOfEntry(c: Court, m: int, h: Heart)
    requires Shaped(c) && m in c.now && h in c.now[m] && Whom(h).Some?
    ensures TieOf(c, m, Whom(h).value) == Tie(c.now[m], Whom(h).value) == Some(h) && Good(c.now[m], m)
  {
    hide Tie, Good;
    assert StoredAs(Effective(c, m), c.saved[m], m);
    EntryIsTie(c.now[m], m, h, Whom(h).value);
  }

  lemma CourtedPartner(l: seq<Heart>, m: int, src: int, now: int)
    requires Good(l, m) && Tie(l, src).Some?
    ensures
      var h := Tie(l, src).value;
      if h.Partner? && !h.offered && h.stage in {0, 1} && h.start + LOVERSHIP_DELAY_MS <= now
      then h.(offered := true) in Courted(l, src, now) else Courted(l, src, now) == l
  {
    var i := IndexOf(l, src).value;
    assert Courted(l, src, now)[i] in Courted(l, src, now);
  }

  lemma OfferedOnlyBy(c: Court, op: Op, m: int, h: Heart)
    requires Shaped(c) && m in c.now && h.Partner? && !h.offered && TieOf(c, m, h.who) == Some(h)
    requires TieOf(Step(c, op), m, h.who) == Some(h.(offered := true))
    ensures Asks(op, h.who, m) && h.start + LOVERSHIP_DELAY_MS <= op.env.now
  {
    hide Step, Tie;
    StepMoves(c, op, m, h.who);
  }

  /** `from` accepts the pending offer of `to` to begin dating, or to take the next step. */
  ghost predicate AcceptsDating(c: Court, op: Op, from: int, to: int) {
    && Faces(c, op, from, to, Accept) && Asked(to) in c.now[from]
    && |c.now[from]| <= 5 && (|c.now[to]| < 5 || Knows(c.now[to], from))
  }

  ghost predicate AcceptsNext(c: Court, op: Op, from: int, to: int, stage: int) {
    && Faces(c, op, from, to, Accept) && |c.now[from]| <= 5
    && exists h :: h in c.now[from] && h.Partner? && h.who == to && h.stage == stage && h.offered
  }

  /** `from` ends the partnership with `to`: a marriage after seven days, anything less at any time. */
  ghost predicate Parts(c: Court, op: Op, from: int, to: int) {
    && op.Break? && op.src == from && op.target == to && to >= 0 && from in c.now
    && exists h :: h in c.now[from] && h.Partner? && h.who == to
         && (h.stage == 2 ==> h.start + 7 * 24 * 60 * 60 * 1000 <= op.now)
  }

  /** What a step makes of what `a` has with `b`, read off the entries of the two lists. */
  ghost function VowAfter(c: Court, op: Op, a: int, b: int): Option<Vow> {
    if AcceptsDating(c, op, a, b) || AcceptsDating(c, op, b, a) then Some(Vow(0, Clock(op)))
    else if AcceptsNext(c, op, a, b, 0) || AcceptsNext(c, op, b, a, 0) then Some(Vow(1, Clock(op)))
    else if AcceptsNext(c, op, a, b, 1) || AcceptsNext(c, op, b, a, 1) then Some(Vow(2, Clock(op)))
    else if Parts(c, op, a, b) || Parts(c, op, b, a) then None
    else VowOf(c, a, b)
  }

  /** Vows change by acceptances and breaks, exactly as their entries say, and by nothing else. */
  lemma VowsChangeIff(c: Court, op: Op, a: int, b: int)
    requires Shaped(c) && SparesPartners(c, op)
    ensures VowOf(Step(c, op), a, b) == VowAfter(c, op, a, b)
  {
    hide Shaped, SparesPartners, VowOf, Step, AcceptsDating, AcceptsNext, Parts, NextStage, MayBreak;
    StepIsOneChange(c, op);
    AcceptanceIs(c, op, a, b);
    AcceptanceIs(c, op, b, a);
    BreakIs(c, op, a, b);
    BreakIs(c, op, b, a);
  }

  lemma AcceptanceIs(c: Court, op: Op, a: int, b: int)
    requires Shaped(c)
    ensures
      var asked := op.Request? && op.src == a && op.target == b && op.action == Accept;
      var next := if asked then NextStage(c, a, b, op.env) else None;
      && (next == Some(0) <==> AcceptsDating(c, op, a, b))
      && (next == Some(1) <==> AcceptsNext(c, op, a, b, 0))
      && (next == Some(2) <==> AcceptsNext(c, op, a, b, 1))
      && (next.Some? ==> next.value in {0, 1, 2})
  {
    hide Tie, Good, Knows, Shaped;
    if Faces(c, op, a, b, Accept) {
      OnlineIsGood(c, a);
      KnowsIff(c.now[b], a);
      EntryIsTie(c.now[a], a, Asked(b), b);
      forall h | h in c.now[a] && h.Partner? && h.who == b ensures Tie(c.now[a], b) == Some(h) {
        EntryIsTie(c.now[a], a, h, b);
      }
      if Tie(c.now[a], b).Some? {
        EntryIsTie(c.now[a], a, Tie(c.now[a], b).value, b);
        FineEntry(c.now[a], a, Tie(c.now[a], b).value);
      }
    }
  }

  lemma OnlineIsGood(c: Court, m: int)
    requires Shaped(c) && m in c.now
    ensures Good(c.now[m], m)
  {
    assert StoredAs(Effective(c, m), c.saved[m], m);
  }

  lemma FineEntry(l: seq<Heart>, m: int, h: Heart)
    requires Good(l, m) && h in l
    ensures Fine(h, m)
  {
  }

  lemma BreakIs(c: Court, op: Op, a: int, b: int)
    requires Shaped(c)
    ensures
      op.Break? && op.src == a && op.target == b && MayBreak(c, a, b, op.now) <==> Parts(c, op, a, b)
  {
    hide Tie, Good, Shaped;
    if op.Break? && a in c.now {
      OnlineIsGood(c, a);
      forall h | h in c.now[a] && h.Partner? && h.who == b ensures Tie(c.now[a], b) == Some(h) {
        EntryIsTie(c.now[a], a, h, b);
      }
      if Tie(c.now[a], b).Some? {
        EntryIsTie(c.now[a], a, Tie(c.now[a], b).value, b);
      }
    }
  }

  /** Taking an NPC: the name begins with `NPC-` and is new, and the list has room. Pending dating offers then
      leave the list in memory, the other entries lose their offers and keep their order, and the NPC comes last.
      The list is stored with the update, unless that is one delayed key. */
  lemma NpcTakenIff(c: Court, m: int, name: string, keys: set<string>) returns (at: seq<nat>)
    requires m in c.now && m in c.saved
    ensures
      var l, c' := c.now[m], Step(c, TakeNpc(m, name, keys));
      if "NPC-" <= name && |l| < 5 && (forall h :: h in l && (h.Npc? || h.Partner?) ==> h.name != name) then
        && m in c'.now && m in c'.saved
        && |c'.now[m]| == |at| + 1 && c'.now[m][|at|] == Npc(name)
        && CleanedAt(l, c'.now[m][..|at|], at)
        && c'.saved[m] == (if OnlyDelayed(Counted(keys, true)) then c.saved[m] else c'.now[m])
        && c'.now - {m} == c.now - {m} && c'.saved - {m} == c.saved - {m}
      else c' == c
  {
    hide Clean;
    var l := c.now[m];
    at := CleanKeeps(l);
    CleanSnoc(l, Npc(name));
    assert MayTakeNpc(c, m, name) <==>
      "NPC-" <= name && |l| < 5 && (forall h :: h in l && (h.Npc? || h.Partner?) ==> h.name != name);
    assert (Clean(l) + [Npc(name)])[..|Clean(l)|] == Clean(l);
  }

  lemma CleanSnoc(l: seq<Heart>, h: Heart)
    ensures Clean(l + [h]) == if h.Asked? then Clean(l) else Clean(l) + [Settled(h)]
  {
    assert (l + [h])[..|l|] == l;
  }

  /** `s` is what is left of `l` without dating offers, in order, with no next step on offer. */
  ghost predicate CleanedAt(l: seq<Heart>, s: seq<Heart>, at: seq<nat>) {
    && Ascending(at, |l|) && |s| == |at| && (forall k: nat :: k < |l| ==> (k in at <==> !l[k].Asked?))
    && forall i :: 0 <= i < |at| ==>
      s[i] == if l[at[i]].Partner? then l[at[i]].(offered := false) else l[at[i]]
  }

  lemma {:induction false} CleanKeeps(l: seq<Heart>) returns (at: seq<nat>)
    ensures CleanedAt(l, Clean(l), at)
  {
    hide Ascending;
    at := [];
    if l != [] {
      var n := |l| - 1;
      var before := CleanKeeps(l[..n]);
      AscendingSnoc(before, n);
      at := if l[n].Asked? then before else before + [n];
      forall k: nat | k < |l| ensures k in at <==> !l[k].Asked? {
        assert k < n ==> l[..n][k] == l[k];
      }
    } else {
      NoneAscending();
    }
  }

  /** A break takes exactly the partnership with that member out of a list and leaves the rest in order. */
  lemma {:induction false} ForsakenKeeps(l: seq<Heart>, p: int) returns (at: seq<nat>)
    ensures Ascending(at, |l|) && |Forsaken(l, p)| == |at|
    ensures forall k: nat :: k < |l| ==> (k in at <==> !(l[k].Partner? && l[k].who == p))
    ensures forall i :: 0 <= i < |at| ==> Forsaken(l, p)[i] == l[at[i]]
  {
    hide Ascending;
    at := [];
    if l != [] {
      var n := |l| - 1;
      var before := ForsakenKeeps(l[..n], p);
      AscendingSnoc(before, n);
      at := if l[n].Partner? && l[n].who == p then before else before + [n];
      forall k: nat | k < |l| ensures k in at <==> !(l[k].Partner? && l[k].who == p) {
        assert k < n ==> l[..n][k] == l[k];
      }
    } else {
      NoneAscending();
    }
  }

  /** Who is online after a step and with which list: a login brings the stored list to memory, a logout leaves
      it in the store only, and a new account begins with nobody. */
  lemma SessionsAfter(c: Court, op: Op, m: int)
    requires Shaped(c) && (op.Login? || op.Logout? || op.Join?)
    ensures
      var c' := Step(c, op);
      && (m in c'.saved <==> m in c.saved || op == Join(m))
      && (m in c.saved ==> c'.saved[m] == c.saved[m])
      && (op == Join(m) && m !in c.saved ==> m in c'.now && c'.now[m] == c'.saved[m] == [])
      && (op == Logout(m) ==> m !in c'.now)
      && (op == Login(m) && m in c.saved ==> m in c'.now)
      && (op != Logout(m) && m in c.now ==> m in c'.now && c'.now[m] == c.now[m])
      && (m !in c.now && m in c.saved && m in c'.now ==> op == Login(m) && c'.now[m] == c.saved[m])
  {
  }

  /** An NPC break takes out the first entry of that name, or the last when there is none of it, keeps the rest in
      order, and stores what is left. */
  lemma NpcBreakRemoves(c: Court, op: Op, i: nat)
    requires op.Break? && op.target < 0 && op.npcName.Some? && op.src in c.now && i < |c.now[op.src]|
    requires
      var l, name := c.now[op.src], op.npcName.value;
      if exists h :: h in l && !h.Asked? && h.name == name
      then !l[i].Asked? && l[i].name == name && forall k :: 0 <= k < i ==> l[k].Asked? || l[k].name != name
      else i == |l| - 1
    ensures
      var l, c' := c.now[op.src], Step(c, op);
      && c'.now == c.now[op.src := l[..i] + l[i + 1..]]
      && c'.saved == c.saved[op.src := Clean(l[..i] + l[i + 1..])]
  {
    hide Clean;
    var l, name := c.now[op.src], op.npcName.value;
    var j := NamedOrLast(l, name).value;
    assert forall h :: Named(h, name) <==> !h.Asked? && h.name == name;
    assert l[i] in l && l[j] in l;
  }

  // ----- From strangers to marriage -----

  /** One proposes and two accepts. */
  function Answered(c: Court, e: Env): Court {
    Step(Step(c, Request(1, 2, Propose, e)), Request(2, 1, Accept, e))
  }

  /** The pair's lists at a stage begun with `e`. */
  function PairLists(e: Env, stage: int): map<int, seq<Heart>> {
    map[1 := [Partner(2, e.srcName, e.now, stage, false)], 2 := [Partner(1, e.targetName, e.now, stage, false)]]
  }

  /** Two new members date, become engaged once seven days have passed, and marry seven days after that: in both
      memories and both stored lists. */
  lemma WeddingReachable(c: Court, dating: Env, engagement: Env, wedding: Env)
    requires c.now == map[1 := [], 2 := []] && c.saved == c.now
    requires forall e :: e in [dating, engagement, wedding] ==> e.room == Some({1, 2}) && !e.blacklisted
    requires dating.now + 604_800_000 <= engagement.now && engagement.now + 604_800_000 <= wedding.now
    ensures
      var c' := Answered(Answered(Answered(c, dating), engagement), wedding);
      && c'.now == PairLists(wedding, 2) && c'.saved == c'.now
  {
    hide Step;
    assert dating in [dating, engagement, wedding] && engagement in [dating, engagement, wedding];
    assert wedding in [dating, engagement, wedding];
    DatingPair(c, dating);
    NextStep(Answered(c, dating), dating, engagement, 0);
    NextStep(Answered(Answered(c, dating), engagement), engagement, wedding, 1);
  }

  lemma NextStep(c: Court, before: Env, e: Env, stage: int)
    requires c.now == PairLists(before, stage) && c.saved == c.now && stage in {0, 1}
    requires e.room == Some({1, 2}) && !e.blacklisted && before.now + 604_800_000 <= e.now
    ensures Answered(c, e).now == PairLists(e, stage + 1) && Answered(c, e).saved == Answered(c, e).now
  {
    hide Step;
    NextOffer(c, before, e, stage);
    NextAcceptance(Step(c, Request(1, 2, Propose, e)), before, e, stage);
  }

  lemma OnePartner(h: Heart, p: int, now: int)
    requires h.Partner? && h.who == p && h.stage in {0, 1} && !h.offered && h.start + LOVERSHIP_DELAY_MS <= now
    ensures Courted([h], p, now) == [h.(offered := true)] && Tie([h], p) == Some(h)
  {
    assert [h][..0] == [] && IndexOf([h], p) == Some(0);
  }

  lemma NextOffer(c: Court, before: Env, e: Env, stage: int)
    requires c.now == PairLists(before, stage) && stage in {0, 1}
    requires e.room == Some({1, 2}) && !e.blacklisted && before.now + LOVERSHIP_DELAY_MS <= e.now
    ensures
      var h := Partner(1, before.targetName, before.now, stage, true);
      Step(c, Request(1, 2, Propose, e)) == c.(now := PairLists(before, stage)[2 := [h]])
  {
    hide Wed, Tie, IndexOf, Clean, Courted, NextStage;
    OnePartner(Partner(1, before.targetName, before.now, stage, false), 1, e.now);
    OnePartner(Partner(2, before.srcName, before.now, stage, false), 2, e.now);
    assert 2 in e.room.value;
    assert Meets(c, 1, 2, e);
  }

  lemma NextAcceptance(c: Court, before: Env, e: Env, stage: int)
    requires stage in {0, 1} && e.room == Some({1, 2}) && !e.blacklisted
    requires c.now == PairLists(before, stage)[2 := [Partner(1, before.targetName, before.now, stage, true)]]
    requires c.saved == PairLists(before, stage)
    ensures Step(c, Request(2, 1, Accept, e)).now == PairLists(e, stage + 1)
    ensures Step(c, Request(2, 1, Accept, e)).saved == PairLists(e, stage + 1)
  {
    hide Wed, Tie, IndexOf, Clean, Courted;
    var h, g := Partner(1, e.targetName, e.now, stage + 1, false), Partner(2, e.srcName, e.now, stage + 1, false);
    OneInList(Partner(1, before.targetName, before.now, stage, true), h, 1, e.now);
    OneInList(Partner(2, before.srcName, before.now, stage, false), g, 2, e.now);
    assert 1 in e.room.value;
    assert NextStage(c, 2, 1, e) == Some(stage + 1);
  }

  // ----- The entries the handlers really keep -----

  /** An entry as the JSON has it: any fields may be there. */
  datatype Entry = Entry(member: Option<int>, name: Option<string>, start: Option<int>, stage: Option<int>,
                         datingBy: Option<int>, engageBy: Option<int>, wedBy: Option<int>)

  const BLANK := Entry(None, None, None, None, None, None, None)

  function HeartOf(e: Entry): Heart {
    if e.member.Some? && e.name.Some? && e.start.Some? && e.stage.Some? then
      Partner(e.member.value, e.name.value, e.start.value, e.stage.value, e.engageBy.Some? || e.wedBy.Some?)
    else if e.datingBy.Some? then Asked(e.datingBy.value)
    else Npc(if e.name.Some? then e.name.value else "")
  }

  function EntryOf(h: Heart): Entry {
    match h
    case Npc(name) => BLANK.(name := Some(name))
    case Asked(from) => BLANK.(datingBy := Some(from))
    case Partner(who, name, start, stage, offered) =>
      Entry(Some(who), Some(name), Some(start), Some(stage), None,
            if offered && stage == 0 then Some(who) else None,
            if offered && stage == 1 then Some(who) else None)
  }

  /** An entry of one of the three shapes holds nothing else. */
  predicate IsShape(e: Entry) {
    e == EntryOf(HeartOf(e))
  }

  /** What an entry of each shape holds, field by field. */
  lemma EntryFields(e: Entry)
    requires IsShape(e)
    ensures
      match HeartOf(e)
      case Npc(name) => e == Entry(None, Some(name), None, None, None, None, None)
      case Asked(from) => e == Entry(None, None, None, None, Some(from), None, None)
      case Partner(who, name, start, stage, offered) =>
        && e.member == Some(who) && e.name == Some(name) && e.start == Some(start) && e.stage == Some(stage)
        && e.datingBy.None? && (offered ==> stage in {0, 1})
        && (e.engageBy == if offered && stage == 0 then Some(who) else None)
        && (e.wedBy == if offered && stage == 1 then Some(who) else None)
  {
  }

  predicate AllShapes(l: seq<Entry>) {
    forall i :: 0 <= i < |l| ==> IsShape(l[i])
  }

  function Hearts(l: seq<Entry>): (hs: seq<Heart>)
    ensures |hs| == |l|
  {
    seq(|l|, i requires 0 <= i < |l| => HeartOf(l[i]))
  }

  /** The first entry that names `member` as partner or as the one who asked. */
  function LoverIndex(list: seq<Entry>, member: int): (r: Option<nat>)
    ensures r.Some? ==> r.value < |list|
  {
    if list == [] then None
    else
      var front := LoverIndex(list[..|list| - 1], member);
      if front.Some? then front
      else if list[|list| - 1].member == Some(member) || list[|list| - 1].datingBy == Some(member)
      then Some(|list| - 1)
      else None
  }

  lemma {:induction false} LoverIndexFinds(list: seq<Entry>, member: int)
    requires AllShapes(list)
    ensures LoverIndex(list, member) == IndexOf(Hearts(list), member)
  {
    if list != [] {
      var n := |list| - 1;
      LoverIndexFinds(list[..n], member);
      assert Hearts(list)[..n] == Hearts(list[..n]);
      assert IsShape(list[n]);
    }
  }

  /** What the entries in memory and store stand for. */
  function View(memory: map<int, seq<Entry>>, store: map<int, seq<Entry>>): Court {
    Court(map m | m in memory :: Hearts(memory[m]), map m | m in store :: Hearts(store[m]))
  }

  predicate ShapesOnly(lists: map<int, seq<Entry>>) {
    forall m :: m in lists ==> AllShapes(lists[m])
  }

  lemma ViewPut(memory: map<int, seq<Entry>>, store: map<int, seq<Entry>>, m: int, l: seq<Entry>, s: seq<Entry>)
    ensures View(memory[m := l], store[m := s]) == Put(View(memory, store), m, Hearts(l), Hearts(s))
    ensures View(memory[m := l], store) == View(memory, store).(now := View(memory, store).now[m := Hearts(l)])
    ensures View(memory, store[m := s]) == View(memory, store).(saved := View(memory, store).saved[m := Hearts(s)])
  {
  }

  lemma HeartsUpdate(l: seq<Entry>, i: nat, h: Heart)
    requires AllShapes(l) && i < |l| && (h.Partner? && h.offered ==> h.stage in {0, 1})
    ensures AllShapes(l[i := EntryOf(h)]) && Hearts(l[i := EntryOf(h)]) == Hearts(l)[i := h]
  {
    assert HeartOf(EntryOf(h)) == h;
  }

  lemma HeartsAppend(l: seq<Entry>, h: Heart)
    requires AllShapes(l) && (h.Partner? && h.offered ==> h.stage in {0, 1})
    ensures AllShapes(l + [EntryOf(h)]) && Hearts(l + [EntryOf(h)]) == Hearts(l) + [h]
  {
    assert HeartOf(EntryOf(h)) == h;
  }

  class LovershipDesk {
    var memory: map<int, seq<Entry>>
    var store: map<int, seq<Entry>>

    function State(): Court
      reads this
    {
      View(memory, store)
    }

    ghost predicate Valid()
      reads this
    {
      ShapesOnly(memory) && ShapesOnly(store) && Shaped(State())
    }

    constructor ()
      ensures Valid() && State() == Court(map[], map[]) && Loyal(State())
    {
      memory, store := map[], map[];
    }

    /** Pending dating offers are left out, and the other pending offers are struck from their entries. */
    method CleanLovership(list: seq<Entry>) returns (out: seq<Entry>)
      requires AllShapes(list)
      ensures AllShapes(out) && Hearts(out) == Clean(Hearts(list))
    {
      out := [];
      for i := 0 to |list|
        invariant AllShapes(out) && Hearts(out) == Clean(Hearts(list[..i]))
      {
        var l := list[i];
        assert IsShape(l);
        assert Hearts(list[..i + 1])[..i] == Hearts(list[..i]);
        assert Hearts(list[..i + 1])[i] == HeartOf(l);
        if !(l.datingBy.Some? && l.member.None?) {
          var e := l.(engageBy := None, wedBy := None, datingBy := None);
          assert HeartOf(e) == Settled(HeartOf(l)) && IsShape(e);
          assert Hearts(out + [e]) == Hearts(out) + [HeartOf(e)];
          out := out + [e];
        }
      }
      assert list[..|list|] == list;
    }

    method PersistLovershipClean(m: int, list: seq<Entry>)
      requires AllShapes(list) && ShapesOnly(store) && m in store
      modifies this`store
      ensures ShapesOnly(store) && store.Keys == old(store.Keys)
      ensures State() == old(State()).(saved := old(State()).saved[m := Clean(Hearts(list))])
    {
      var clean := CleanLovership(list);
      ViewPut(memory, store, m, [], clean);
      store := store[m := clean];
    }

    method LoadSession(m: int)
      requires Valid()
      modifies this
      ensures Valid() && State() == Step(old(State()), Login(m))
    {
      hide Shaped;
      StepKeepsShaped(State(), Login(m));
      if m in store && m !in memory {
        ViewPut(memory, store, m, store[m], []);
        memory := memory[m := store[m]];
      }
    }

    method EndSession(m: int)
      requires Valid()
      modifies this
      ensures Valid() && State() == Step(old(State()), Logout(m))
    {
      hide Shaped, Hearts;
      StepKeepsShaped(State(), Logout(m));
      memory := memory - {m};
      assert State().now == old(State()).now - {m};
    }

    method CreateAccount(m: int)
      requires Valid()
      modifies this
      ensures Valid() && State() == Step(old(State()), Join(m))
    {
      hide Shaped;
      StepKeepsShaped(State(), Join(m));
      if m !in store {
        ViewPut(memory, store, m, [], []);
        memory := memory[m := []];
        store := store[m := []];
      }
    }

    /** Replaces or appends both entries in memory, then stores both lists. */
    method ApplyMutualLover(src: int, target: int, ai: nat, tl: Option<nat>, h: Heart, g: Heart)
      requires ShapesOnly(memory) && ShapesOnly(store) && src in memory && target in memory && src != target
      requires src in store && target in store
      requires IndexOf(Hearts(memory[src]), target) == Some(ai) && IndexOf(Hearts(memory[target]), src) == tl
      requires h.Partner? && !h.offered && g.Partner? && !g.offered
      modifies this
      ensures ShapesOnly(memory) && ShapesOnly(store)
      ensures
        var c := old(State());
        var l, k := Wed(c.now[src], target, h), Wed(c.now[target], src, g);
        State() == Put(Put(c, src, l, Clean(l)), target, k, Clean(k))
    {
      hide Clean, IndexOf, Hearts, HeartOf, EntryOf;
      var mine, theirs := memory[src], memory[target];
      HeartsUpdate(mine, ai, h);
      if ai < |mine| {
        mine := mine[ai := EntryOf(h)];
      } else {
        mine := mine + [EntryOf(h)];
      }
      HeartsAppend(theirs, g);
      if tl.Some? {
        HeartsUpdate(theirs, tl.value, g);
        if tl.value < |theirs| {
          theirs := theirs[tl.value := EntryOf(g)];
        } else {
          theirs := theirs + [EntryOf(g)];
        }
      } else {
        theirs := theirs + [EntryOf(g)];
      }
      ViewPut(memory, store, src, mine, []);
      memory := memory[src := mine];
      ViewPut(memory, store, target, theirs, []);
      memory := memory[target := theirs];
      PersistLovershipClean(src, mine);
      PersistLovershipClean(target, theirs);
    }

    /** Steps 1, 3 and 5: offers, kept in the target's memory only. */
    method Offer(src: int, target: int, tl: Option<nat>, now: int)
      requires Valid() && target in memory && src != target
      requires tl == IndexOf(Hearts(memory[target]), src)
      modifies this`memory
      ensures ShapesOnly(memory)
      ensures State() == old(State()).(now := old(State()).now[target := Courted(old(State()).now[target], src, now)])
    {
      hide Shaped;
      var theirs := memory[target];
      ghost var l := Hearts(theirs);
      if |theirs| < MAX_LOVERS && tl.None? {
        HeartsAppend(theirs, Asked(src));
        memory := memory[target := theirs + [BLANK.(datingBy := Some(src))]];
      }
      if tl.Some? {
        var entry := theirs[tl.value];
        assert IsShape(entry) && l[tl.value] == HeartOf(entry);
        var aged := entry.start.Some? && entry.start.value + LOVERSHIP_DELAY_MS <= now;
        if entry.engageBy.None? && entry.stage == Some(0) && aged {
          HeartsUpdate(theirs, tl.value, HeartOf(entry).(offered := true));
          memory := memory[target := memory[target][tl.value := entry.(engageBy := Some(src))]];
        }
        if entry.wedBy.None? && entry.stage == Some(1) && aged {
          HeartsUpdate(theirs, tl.value, HeartOf(entry).(offered := true));
          memory := memory[target := memory[target][tl.value := entry.(wedBy := Some(src))]];
        }
      }
      assert Hearts(memory[target]) == Courted(l, src, now);
      ViewPut(old(memory), old(store), target, memory[target], []);
      assert old(memory)[target := memory[target]] == memory;
    }

    /** Steps 2, 4 and 6: acceptances, kept in both memories and stored. */
    method AcceptOffer(src: int, target: int, ai: nat, e: Env)
      requires Valid() && Meets(State(), src, target, e)
      requires IndexOf(State().now[src], target) == Some(ai) && |memory[src]| <= MAX_LOVERS
      modifies this
      ensures ShapesOnly(memory) && ShapesOnly(store)
      ensures State() == Act(old(State()), src, target, Accept, e)
    {
      ghost var c := State();
      OnlineIsStored(src);
      OnlineIsStored(target);
      StageBound(c, src);
      hide Shaped, Clean, Wed, IndexOf, Put;
      var entry := memory[src][ai];
      assert IsShape(entry) && c.now[src][ai] == HeartOf(entry);
      LoverIndexFinds(memory[target], src);
      var tl := LoverIndex(memory[target], src);
      if entry.datingBy == Some(target) {
        if |memory[target]| < MAX_LOVERS || tl.Some? {
          assert NextStage(c, src, target, e) == Some(0);
          ApplyMutualLover(src, target, ai, tl, Partner(target, e.targetName, e.now, 0, false),
                           Partner(src, e.srcName, e.now, 0, false));
        }
      }
      if entry.stage == Some(0) && entry.engageBy == Some(target) {
        assert NextStage(c, src, target, e) == Some(1);
        ApplyMutualLover(src, target, ai, tl, Partner(target, e.targetName, e.now, 1, false),
                         Partner(src, e.srcName, e.now, 1, false));
      }
      if entry.stage == Some(1) && entry.wedBy == Some(target) {
        assert NextStage(c, src, target, e) == Some(2);
        ApplyMutualLover(src, target, ai, tl, Partner(target, e.targetName, e.now, 2, false),
                         Partner(src, e.srcName, e.now, 2, false));
      }
    }

    method HandleAccountLovership(src: int, target: int, action: Action, e: Env)
      requires Valid()
      modifies this
      ensures Valid() && State() == Act(old(State()), src, target, action, e)
    {
      ghost var c := State();
      StepKeepsShaped(c, Request(src, target, action, e));
      hide Shaped, Hearts, IsShape;
      if src !in memory || e.room.None? {
        return;
      }
      if target !in e.room.value || src == target || target !in memory || e.blacklisted {
        return;
      }
      var mine, theirs := memory[src], memory[target];
      assert c.now[src] == Hearts(mine) && c.now[target] == Hearts(theirs);
      LoverIndexFinds(mine, target);
      LoverIndexFinds(theirs, src);
      var al, tl := LoverIndex(mine, target), LoverIndex(theirs, src);
      if (|mine| < MAX_LOVERS && al.None?) || al.Some? {
        if action == Propose {
          Offer(src, target, tl, e.now);
        }
      }
      if al.None? || |mine| > MAX_LOVERS {
        return;
      }
      if action == Accept {
        AcceptOffer(src, target, al.value, e);
      }
    }

    /** Ends an NPC's place in the list, or whatever entry comes last when the name is unknown. */
    method BreakNpc(src: int, name: string)
      requires Valid() && src in memory
      modifies this
      ensures ShapesOnly(memory) && ShapesOnly(store) && State() == NpcBroken(old(State()), src, name)
    {
      OnlineIsStored(src);
      hide Shaped, Clean, Hearts, HeartOf, NamedOrLast, PositionOfName;
      var list := memory[src];
      var index := PositionOfName(list, name);
      PositionIsNamed(list, name);
      if index.Some? {
        HeartsRemoved(list, index.value);
        list := Removed(list, index.value);
      } else if list != [] {
        HeartsRemoved(list, |list| - 1);
        list := Removed(list, |list| - 1);
      }
      assert list == [] ==> Hearts(list) == [];
      ViewPut(memory, store, src, list, []);
      memory := memory[src := list];
      PersistLovershipClean(src, list);
    }

    lemma OnlineIsStored(m: int)
      requires Shaped(State()) && m in memory
      ensures m in store
    {
      assert m in State().now && State().now.Keys <= State().saved.Keys;
      assert m in State().saved;
    }

    /** Takes the partnership out of both lists; an absent partner's is pulled from the store. */
    method HandleLoverBreak(src: int, target: int, npcName: Option<string>, now: int)
      requires Valid()
      modifies this
      ensures Valid() && State() == Step(old(State()), Break(src, target, npcName, now))
    {
      StepKeepsShaped(State(), Break(src, target, npcName, now));
      hide Shaped, Broken, NpcBroken;
      if src !in memory {
        return;
      }
      if target < 0 {
        if npcName.Some? {
          BreakNpc(src, npcName.value);
        }
        return;
      }
      StageBound(State(), src);
      LoverIndexFinds(memory[src], target);
      var i := LoverIndex(memory[src], target);
      if i.None? {
        return;
      }
      var entry := memory[src][i.value];
      assert IsShape(entry) && State().now[src][i.value] == HeartOf(entry);
      if entry.stage.None? || entry.start.None? {
        return;
      }
      if entry.stage == Some(2) && entry.start.value + LOVERSHIP_DELAY_MS > now {
        return;
      }
      BreakPartners(src, target, i.value);
    }

    method BreakPartners(src: int, target: int, i: nat)
      requires Valid() && src in memory && i < |memory[src]|
      requires IndexOf(Hearts(memory[src]), target) == Some(i) && Hearts(memory[src])[i].Partner?
      modifies this
      ensures ShapesOnly(memory) && ShapesOnly(store) && State() == Broken(old(State()), src, target)
    {
      hide Shaped, Clean, Good, IndexOf, HeartOf, Hearts, Forsaken, Retained, Removed, IsShape;
      ghost var c := State();
      BreakFacts(c, src, target, i);
      OnlineIsStored(src);
      if target in memory {
        OnlineIsStored(target);
      }
      hide View;
      ForsakenIsRemoved(c.now[src], src, i, target);
      HeartsRemoved(memory[src], i);
      var list := Removed(memory[src], i);
      ViewPut(memory, store, src, list, []);
      memory := memory[src := list];
      var online := target in memory;
      if online {
        RetainedIsForsaken(memory[target], src);
        var theirs := Retained(memory[target], src);
        ViewPut(memory, store, target, theirs, []);
        memory := memory[target := theirs];
      }
      PersistLovershipClean(src, list);
      if online {
        PersistLovershipClean(target, memory[target]);
      } else {
        PullLovershipMember(target, src);
      }
    }

    method PullLovershipMember(target: int, src: int)
      requires ShapesOnly(store)
      modifies this`store
      ensures ShapesOnly(store)
      ensures State() == if target in old(store)
        then old(State()).(saved := old(State()).saved[target := Forsaken(old(State()).saved[target], src)])
        else old(State())
    {
      if target in store {
        RetainedIsForsaken(store[target], src);
        ViewPut(memory, store, target, [], Retained(store[target], src));
        store := store[target := Retained(store[target], src)];
      }
    }

    /** An account update whose `Lover` names an NPC: the NPC is added unless the list is full or holds
        that name, and pending offers are dropped from memory too. It is stored with the rest of the update,
        whose keys are `keys`, if that is stored now. */
    method TakeNpcLover(m: int, lover: string, keys: set<string>)
      requires Valid()
      modifies this
      ensures Valid() && State() == Step(old(State()), TakeNpc(m, lover, keys))
    {
      hide Shaped, Clean, Hearts, HeartOf, EntryOf, IsShape, NamedOrLast, WrittenLater;
      StepKeepsShaped(State(), TakeNpc(m, lover, keys));
      if m !in memory {
        return;
      }
      OnlineIsStored(m);
      var list := memory[m];
      PositionIsNamed(list, lover);
      if "NPC-" <= lover && |list| < MAX_LOVERS {
        var present := PositionOfName(list, lover).Some?;
        if !present {
          AppendNpc(m, lover, WrittenLater(keys));
        }
      }
    }

    method AppendNpc(m: int, lover: string, onlyDelayed: bool)
      requires ShapesOnly(memory) && ShapesOnly(store) && m in memory && m in store
      modifies this
      ensures ShapesOnly(memory) && ShapesOnly(store)
      ensures m in old(State()).now && m in old(State()).saved
      ensures State() == NpcTaken(old(State()), m, lover, onlyDelayed)
    {
      hide Clean, Hearts, HeartOf, EntryOf, IsShape;
      HeartsAppend(memory[m], Npc(lover));
      NpcEntry(lover);
      var clean := CleanLovership(memory[m] + [BLANK.(name := Some(lover))]);
      ViewPut(memory, store, m, clean, clean);
      SavedAsBefore(memory, store, m, clean);
      memory := memory[m := clean];
      if !onlyDelayed {
        store := store[m := clean];
      }
    }
  }

  lemma BreakFacts(c: Court, src: int, target: int, i: nat)
    requires Shaped(c) && src in c.now && IndexOf(c.now[src], target) == Some(i) && c.now[src][i].Partner?
    ensures src != target && Good(c.now[src], src) && c.now[src][i].who == target
  {
    StageBound(c, src);
  }

  lemma HeartsRemoved(l: seq<Entry>, i: nat)
    requires AllShapes(l) && i < |l|
    ensures AllShapes(Removed(l, i)) && Hearts(Removed(l, i)) == Removed(Hearts(l), i)
    ensures |l| == 1 ==> Removed(l, i) == []
  {
  }

  lemma NpcEntry(name: string)
    ensures EntryOf(Npc(name)) == BLANK.(name := Some(name))
  {
  }

  lemma SavedAsBefore(memory: map<int, seq<Entry>>, store: map<int, seq<Entry>>, m: int, l: seq<Entry>)
    requires m in store
    ensures View(memory[m := l], store) == Put(View(memory, store), m, Hearts(l), View(memory, store).saved[m])
  {
  }

  function PositionOfName(list: seq<Entry>, name: string): (r: Option<nat>)
    ensures r.Some? ==> r.value < |list|
  {
    if list == [] then None
    else
      var front := PositionOfName(list[..|list| - 1], name);
      if front.Some? then front else if list[|list| - 1].name == Some(name) then Some(|list| - 1) else None
  }

  lemma {:induction false} PositionFinds(list: seq<Entry>, name: string)
    requires AllShapes(list)
    ensures
      var r := PositionOfName(list, name);
      if r.None? then forall k :: 0 <= k < |list| ==> !Named(HeartOf(list[k]), name)
      else Named(HeartOf(list[r.value]), name) && forall k :: 0 <= k < r.value ==> !Named(HeartOf(list[k]), name)
  {
    if list != [] {
      PositionFinds(list[..|list| - 1], name);
      assert IsShape(list[|list| - 1]);
    }
  }

  lemma PositionIsNamed(list: seq<Entry>, name: string)
    requires AllShapes(list)
    ensures
      var r := PositionOfName(list, name);
      && (r.None? <==> forall h :: h in Hearts(list) ==> !Named(h, name))
      && NamedOrLast(Hearts(list), name) == (if r.Some? then r else if list == [] then None else Some(|list| - 1))
  {
    PositionFinds(list, name);
    var r := PositionOfName(list, name);
    if r.Some? {
      assert Named(Hearts(list)[r.value], name);
    }
  }

  /** The entries whose partner is not `member`. */
  function Retained(list: seq<Entry>, member: int): seq<Entry> {
    if list == [] then []
    else
      var front, last := Retained(list[..|list| - 1], member), list[|list| - 1];
      if last.member != Some(member) then front + [last] else front
  }

  lemma {:induction false} RetainedIsForsaken(list: seq<Entry>, member: int)
    requires AllShapes(list)
    ensures AllShapes(Retained(list, member)) && Hearts(Retained(list, member)) == Forsaken(Hearts(list), member)
  {
    if list != [] {
      var front, last := list[..|list| - 1], list[|list| - 1];
      RetainedIsForsaken(front, member);
      assert Hearts(list)[..|list| - 1] == Hearts(front);
      assert IsShape(last);
      assert Hearts(Retained(front, member) + [last]) == Hearts(Retained(front, member)) + [HeartOf(last)];
    }
  }

  lemma StageBound(c: Court, m: int)
    requires Shaped(c) && m in c.now
    ensures Good(c.now[m], m)
  {
    assert StoredAs(Effective(c, m), c.saved[m], m);
  }
}
