/** The rental ledger of underground prisons in `src/account/mod.rs`: renting a place, releasing a
    rental, entering and leaving a work sector, and the expiry sweep. Money and vaults are whole
    numbers, and each request is one step. */
module Prison {
  import opened Lists
  import opened Numbers
  import opened Options
  import opened Sectors

  const RENT_FEE := 500
  const RENT_DURATION_MS := 86_400_000
  const RANSOM_MIN := 100

  // ----- Records -----

  datatype Role = Self | Slave | Owner | OtherRole

  datatype Rental = Rental(renter: Option<int>, role: Role, privateIndex: int, until: Option<int>)

  datatype Sector = Sector(unlocked: bool, hasOverseer: bool, base: int, extra: int, slaves: Option<seq<Rental>>)

  datatype Prison = Prison(owned: bool, isPublic: bool, vault: int, sectors: Option<seq<Sector>>)

  datatype Purse = Purse(money: int, prison: Option<Prison>)

  type Ledger = map<int, Purse>

  function Max(a: int, b: int): int {
    if a < b then b else a
  }

  predicate IsActive(r: Rental, now: int) {
    r.until.None? || r.until.value <= 0 || r.until.value > now
  }

  function Active(slaves: seq<Rental>, now: int): seq<Rental> {
    if slaves == [] then []
    else
      var front, last := Active(slaves[..|slaves| - 1], now), slaves[|slaves| - 1];
      if IsActive(last, now) then front + [last] else front
  }

  function Lapsed(slaves: seq<Rental>, now: int): seq<Rental> {
    if slaves == [] then []
    else
      var front, last := Lapsed(slaves[..|slaves| - 1], now), slaves[|slaves| - 1];
      if IsActive(last, now) then front else front + [last]
  }

  function Capacity(s: Sector): int {
    Max(s.base, 5) + Max(s.extra, 0)
  }

  function Rentals(s: Sector): seq<Rental> {
    if s.slaves.Some? then s.slaves.value else []
  }

  /** The sector at `p`, when the ledger has one there. */
  function SectorAt(l: Ledger, p: Place): Option<Sector> {
    if p.host in l && l[p.host].prison.Some? && l[p.host].prison.value.sectors.Some?
       && p.sector < |l[p.host].prison.value.sectors.value|
    then Some(l[p.host].prison.value.sectors.value[p.sector])
    else None
  }

  function WithSector(l: Ledger, p: Place, s: Sector): Ledger
    requires SectorAt(l, p).Some?
  {
    var prison := l[p.host].prison.value;
    l[p.host := l[p.host].(prison := Some(prison.(sectors := Some(prison.sectors.value[p.sector := s]))))]
  }

  function WithVault(l: Ledger, host: int, added: int): Ledger
    requires host in l && l[host].prison.Some?
  {
    var prison := l[host].prison.value;
    l[host := l[host].(prison := Some(prison.(vault := prison.vault + added)))]
  }

  function WithMoney(l: Ledger, m: int, money: int): Ledger
    requires m in l
  {
    l[m := l[m].(money := money)]
  }

  // ----- Requests -----

  datatype Refusal = BadRequest | Offline | NotFound | InsufficientFunds | Private | BadSlave | Full
                   | NotOwner | NotRenter | NotRented

  /** `npcs` is how many private-room characters the renter has. */
  datatype RentRequest = RentRequest(host: Option<int>, sector: int, forSelf: bool, privateIndex: int, npcs: nat)

  datatype Town = Town(ledger: Ledger, at: map<int, Place>, online: set<int>)

  function RentRefusal(t: Town, src: int, q: RentRequest, now: int): Option<Refusal> {
    var l := t.ledger;
    if q.host.None? || q.sector < 0 then Some(BadRequest)
    else if src !in t.online || src !in l then Some(Offline)
    else if q.host.value == src then Some(BadRequest)
    else if q.host.value !in l then Some(NotFound)
    else if l[src].money < RENT_FEE then Some(InsufficientFunds)
    else
      var prison := l[q.host.value].prison;
      if prison.None? || !prison.value.owned || !prison.value.isPublic then Some(Private)
      else if !q.forSelf && !(1 <= q.privateIndex <= q.npcs) then Some(BadSlave)
      else
        var s := SectorAt(l, Place(q.host.value, q.sector));
        if s.None? || !s.value.unlocked || !s.value.hasOverseer
           || |Active(Rentals(s.value), now)| >= Capacity(s.value)
        then Some(Full)
        else None
  }

  function NewRental(src: int, q: RentRequest, now: int): Rental {
    Rental(Some(src), if q.forSelf then Self else Slave, if q.forSelf then -1 else q.privateIndex,
           Some(now + RENT_DURATION_MS))
  }

  function Rented(t: Town, src: int, q: RentRequest, now: int): Town
    requires RentRefusal(t, src, q, now).None?
  {
    var p := Place(q.host.value, q.sector);
    var s := SectorAt(t.ledger, p).value;
    var slaves := Active(Rentals(s), now) + [NewRental(src, q, now)];
    var l := WithVault(WithSector(t.ledger, p, s.(slaves := Some(slaves))), p.host, RENT_FEE);
    t.(ledger := WithMoney(l, src, l[src].money - RENT_FEE))
  }

  datatype ReleaseKind = OwnerDismiss | SelfRansom | OtherKind

  /** `target` is the member named in the request, if any. */
  datatype ReleaseRequest = ReleaseRequest(kind: ReleaseKind, host: Option<int>, sector: int, forSlave: bool,
                                           target: Option<int>, privateIndex: int)

  predicate IsRentalOf(r: Rental, renter: int, role: Role, privateIndex: int) {
    r.renter == Some(renter) && r.role == role && (role == Self || r.privateIndex == privateIndex)
  }

  /** The first rental of that renter in that role. */
  function FirstRental(slaves: seq<Rental>, renter: int, role: Role, privateIndex: int): (r: Option<nat>)
    ensures r.Some? ==>
      r.value < |slaves| && IsRentalOf(slaves[r.value], renter, role, privateIndex)
      && forall k :: 0 <= k < r.value ==> !IsRentalOf(slaves[k], renter, role, privateIndex)
    ensures r.None? ==> forall k :: 0 <= k < |slaves| ==> !IsRentalOf(slaves[k], renter, role, privateIndex)
  {
    if slaves == [] then None
    else
      var front := FirstRental(slaves[..|slaves| - 1], renter, role, privateIndex);
      if front.Some? then front
      else if IsRentalOf(slaves[|slaves| - 1], renter, role, privateIndex) then Some(|slaves| - 1)
      else None
  }

  /** The ransom: the rent for the time that remains, rounded up, and no less than the minimum. */
  function RansomFee(until: int, now: int): int {
    if until <= now then 0
    else Max((RENT_FEE * (until - now) + RENT_DURATION_MS - 1) / RENT_DURATION_MS, RANSOM_MIN)
  }

  function Target(src: int, q: ReleaseRequest): int {
    if q.target.Some? then q.target.value else src
  }

  function RoleOf(q: ReleaseRequest): Role {
    if q.forSlave then Slave else Self
  }

  /** The rental a release is about. */
  function Wanted(l: Ledger, src: int, q: ReleaseRequest): (r: Option<nat>)
    requires q.host.Some? && q.sector >= 0
    ensures r.Some? ==>
      SectorAt(l, Place(q.host.value, q.sector)).Some?
      && r.value < |Rentals(SectorAt(l, Place(q.host.value, q.sector)).value)|
  {
    var s := SectorAt(l, Place(q.host.value, q.sector));
    if s.None? then None else FirstRental(Rentals(s.value), Target(src, q), RoleOf(q), q.privateIndex)
  }

  function UntilOf(r: Rental): int {
    if r.until.Some? then r.until.value else 0
  }

  function FeeOf(l: Ledger, src: int, q: ReleaseRequest, now: int): int
    requires q.host.Some? && q.sector >= 0 && Wanted(l, src, q).Some?
  {
    var r := Rentals(SectorAt(l, Place(q.host.value, q.sector)).value)[Wanted(l, src, q).value];
    if q.kind == SelfRansom then RansomFee(UntilOf(r), now) else 0
  }

  function ReleaseRefusal(t: Town, src: int, q: ReleaseRequest, now: int): Option<Refusal> {
    var l := t.ledger;
    if q.host.None? || q.sector < 0 then Some(BadRequest)
    else if src !in t.online || src !in l then Some(Offline)
    else if q.host.value !in l || l[q.host.value].prison.None? then Some(NotFound)
    else if q.kind == OwnerDismiss && src != q.host.value then Some(NotOwner)
    else if q.kind == OtherKind then Some(BadRequest)
    else if q.kind == SelfRansom && (q.forSlave || Target(src, q) != src) then Some(NotRenter)
    else if Wanted(l, src, q).None? then Some(NotFound)
    else if FeeOf(l, src, q, now) > l[src].money then Some(InsufficientFunds)
    else None
  }

  /** The registry once `m` has left the sector at `p`, if that is where `m` was. */
  function Gone(at: map<int, Place>, p: Place, m: int): map<int, Place> {
    if m in at && at[m] == p then at - {m} else at
  }

  function Released(t: Town, src: int, q: ReleaseRequest, now: int): Town
    requires ReleaseRefusal(t, src, q, now).None?
  {
    var p := Place(q.host.value, q.sector);
    var s := SectorAt(t.ledger, p).value;
    var l := WithSector(t.ledger, p, s.(slaves := Some(Removed(Rentals(s), Wanted(t.ledger, src, q).value))));
    t.(ledger := WithMoney(l, src, l[src].money - FeeOf(t.ledger, src, q, now)), at := Gone(t.at, p, Target(src, q)))
  }

  /** A rental that lets its renter work in the sector in person. */
  predicate Admits(r: Rental, m: int, now: int) {
    r.renter == Some(m) && r.role == Self && IsActive(r, now)
  }

  function JoinRefusal(t: Town, src: int, p: Place, now: int): Option<Refusal> {
    if src !in t.online then Some(Offline)
    else
      var s := SectorAt(t.ledger, p);
      if s.None? || !s.value.unlocked then Some(NotFound)
      else if src != p.host && forall r :: r in Rentals(s.value) ==> !Admits(r, src, now) then Some(NotRented)
      else None
  }

  /** A rental of `m` in the sector at `p` that has run out and ends the visit with it. */
  predicate Overdue(l: Ledger, p: Place, m: int, now: int) {
    SectorAt(l, p).Some?
    && exists r :: r in Rentals(SectorAt(l, p).value)
         && !IsActive(r, now) && r.renter == Some(m) && r.role in {Self, Slave}
  }

  function Pruned(s: Sector, now: int): Sector {
    if s.slaves.Some? then s.(slaves := Some(Active(s.slaves.value, now))) else s
  }

  function PrunedPrison(h: int, p: Prison, places: set<Place>, now: int): Prison {
    if p.sectors.None? then p
    else
      var ss := p.sectors.value;
      p.(sectors := Some(seq(|ss|, i requires 0 <= i < |ss| =>
           if Place(h, i) in places then Pruned(ss[i], now) else ss[i])))
  }

  /** The ledger without the rentals that have run out in the sectors `places`. */
  function Swept(l: Ledger, places: set<Place>, now: int): Ledger {
    map h | h in l ::
      if l[h].prison.Some? then l[h].(prison := Some(PrunedPrison(h, l[h].prison.value, places, now))) else l[h]
  }

  /** The sweep looks at the sectors somebody is in. */
  function Expired(t: Town, now: int): Town {
    t.(ledger := Swept(t.ledger, Places(t.at), now),
       at := map m | m in t.at && !Overdue(t.ledger, t.at[m], m, now) :: t.at[m])
  }

  datatype Op =
    | Rent(src: int, rent: RentRequest, now: int)
    | Release(src: int, release: ReleaseRequest, now: int)
    | JoinSector(src: int, place: Place, now: int)
    | LeaveSector(src: int, place: Place)
    | Expire(now: int)
    | Login(member: int)
    | Logout(member: int)

  function Step(t: Town, op: Op): Town {
    match op
    case Rent(src, q, now) => if RentRefusal(t, src, q, now).None? then Rented(t, src, q, now) else t
    case Release(src, q, now) => if ReleaseRefusal(t, src, q, now).None? then Released(t, src, q, now) else t
    case JoinSector(src, p, now) => if JoinRefusal(t, src, p, now).None? then t.(at := t.at[src := p]) else t
    case LeaveSector(src, p) => if src in t.online then t.(at := Gone(t.at, p, src)) else t
    case Expire(now) => Expired(t, now)
    case Login(m) => if m in t.ledger then t.(online := t.online + {m}) else t
    case Logout(m) => if m in t.online then t.(online := t.online - {m}, at := t.at - {m}) else t
  }

  function Run(t: Town, ops: seq<Op>): Town
    decreases |ops|
  {
    if ops == [] then t else Step(Run(t, ops[..|ops| - 1]), ops[|ops| - 1])
  }

  // ----- The ransom fee -----

  /** While a rental is running, the fee is the least amount from the minimum up that covers the rent for
      the time that remains. */
  lemma FeeIsLeast(until: int, now: int)
    requires until > now
    ensures
      var f, remaining := RansomFee(until, now), until - now;
      && f >= RANSOM_MIN && f * RENT_DURATION_MS >= RENT_FEE * remaining
      && forall g :: g >= RANSOM_MIN && g * RENT_DURATION_MS >= RENT_FEE * remaining ==> f <= g
  {
  }

  /** A rental of the server's own making costs between the minimum and the rent to leave, and less the
      later one leaves. */
  lemma FeeInRange(until: int, now: int, later: int)
    requires now <= later && until - now <= RENT_DURATION_MS
    ensures now < until ==> RANSOM_MIN <= RansomFee(until, now) <= RENT_FEE
    ensures RansomFee(until, later) <= RansomFee(until, now)
    ensures RansomFee(until, now) == 0 <==> until <= now
  {
  }

  /** The product and the sum inside the fee stay within `i64` exactly up to this much remaining time. */
  lemma FeeFitsIff(until: int, now: int)
    requires until > now
    ensures IsI64(RENT_FEE * (until - now)) && IsI64(RENT_FEE * (until - now) + RENT_DURATION_MS)
       <==> until - now <= (I64_MAX - RENT_DURATION_MS) / RENT_FEE
  {
  }

  // ----- Writes to the ledger -----

  lemma WithSectorAt(l: Ledger, p: Place, s: Sector, q: Place)
    requires SectorAt(l, p).Some?
    ensures SectorAt(WithSector(l, p, s), q) == if q == p then Some(s) else SectorAt(l, q)
  {
  }

  lemma PaymentsKeepSectors(l: Ledger, host: int, added: int, m: int, money: int, q: Place)
    requires m in l
    ensures SectorAt(WithMoney(l, m, money), q) == SectorAt(l, q)
    ensures host in l && l[host].prison.Some? ==> SectorAt(WithVault(l, host, added), q) == SectorAt(l, q)
  {
  }

  lemma KeepsPurse(l: Ledger, host: int, added: int, m: int)
    requires host in l && l[host].prison.Some? && m in l && m != host
    ensures m in WithVault(l, host, added) && WithVault(l, host, added)[m] == l[m]
  {
  }

  lemma RentedSector(t: Town, src: int, q: RentRequest, now: int, p: Place)
    requires RentRefusal(t, src, q, now).None?
    ensures
      var here := Place(q.host.value, q.sector);
      var s := SectorAt(t.ledger, here).value;
      SectorAt(Rented(t, src, q, now).ledger, p) ==
        if p == here then Some(s.(slaves := Some(Active(Rentals(s), now) + [NewRental(src, q, now)])))
        else SectorAt(t.ledger, p)
  {
    hide SectorAt, WithVault, WithMoney, Active;
    var here := Place(q.host.value, q.sector);
    var s := SectorAt(t.ledger, here).value;
    var s' := s.(slaves := Some(Active(Rentals(s), now) + [NewRental(src, q, now)]));
    WithSectorAt(t.ledger, here, s', p);
    var l := WithSector(t.ledger, here, s');
    assert src in l && l[src] == t.ledger[src] && l[here.host].prison.Some?;
    PaymentsKeepSectors(l, here.host, RENT_FEE, src, 0, p);
    KeepsPurse(l, here.host, RENT_FEE, src);
    PaymentsKeepSectors(WithVault(l, here.host, RENT_FEE), here.host, 0, src, l[src].money - RENT_FEE, p);
  }

  lemma ReleasedSector(t: Town, src: int, q: ReleaseRequest, now: int, p: Place)
    requires ReleaseRefusal(t, src, q, now).None?
    ensures
      var here := Place(q.host.value, q.sector);
      var s := SectorAt(t.ledger, here).value;
      SectorAt(Released(t, src, q, now).ledger, p) ==
        if p == here then Some(s.(slaves := Some(Removed(Rentals(s), Wanted(t.ledger, src, q).value))))
        else SectorAt(t.ledger, p)
  {
    hide SectorAt, WithMoney, Removed;
    var here := Place(q.host.value, q.sector);
    var s := SectorAt(t.ledger, here).value;
    var s' := s.(slaves := Some(Removed(Rentals(s), Wanted(t.ledger, src, q).value)));
    WithSectorAt(t.ledger, here, s', p);
    var l := WithSector(t.ledger, here, s');
    assert src in l;
    PaymentsKeepSectors(l, here.host, 0, src, l[src].money - FeeOf(t.ledger, src, q, now), p);
  }

  lemma SweptSector(l: Ledger, places: set<Place>, now: int, p: Place)
    ensures SectorAt(Swept(l, places, now), p) ==
      if p in places && SectorAt(l, p).Some? then Some(Pruned(SectorAt(l, p).value, now)) else SectorAt(l, p)
  {
    hide Pruned;
  }

  // ----- Money -----

  function Worth(p: Purse): int {
    p.money + if p.prison.Some? then p.prison.value.vault else 0
  }

  ghost function Sum(l: Ledger, ks: set<int>): int
    requires ks <= l.Keys
  {
    if ks == {} then 0
    else
      SomebodyIn(ks);
      var m :| m in ks;
      Worth(l[m]) + Sum(l, ks - {m})
  }

  /** All the money there is, in hand and in vaults. */
  ghost function Total(l: Ledger): int {
    Sum(l, l.Keys)
  }

  lemma {:induction false} SumWithout(l: Ledger, ks: set<int>, m: int)
    requires ks <= l.Keys && m in ks
    ensures Sum(l, ks) == Worth(l[m]) + Sum(l, ks - {m})
  {
    hide Worth;
    var k :| k in ks && Sum(l, ks) == Worth(l[k]) + Sum(l, ks - {k});
    if k != m {
      SumWithout(l, ks - {k}, m);
      SumWithout(l, ks - {m}, k);
      assert ks - {k} - {m} == ks - {m} - {k};
    }
  }

  lemma {:induction false} SameWorthSameSum(l: Ledger, l': Ledger, ks: set<int>)
    requires ks <= l.Keys && ks <= l'.Keys && forall m :: m in ks ==> Worth(l[m]) == Worth(l'[m])
    ensures Sum(l, ks) == Sum(l', ks)
  {
    hide Worth;
    if ks != {} {
      SomebodyIn(ks);
      var m :| m in ks;
      SumWithout(l, ks, m);
      SumWithout(l', ks, m);
      SameWorthSameSum(l, l', ks - {m});
    }
  }

  lemma TotalUpdate(l: Ledger, m: int, p: Purse)
    requires m in l
    ensures Total(l[m := p]) == Total(l) - Worth(l[m]) + Worth(p)
  {
    hide Worth;
    var l' := l[m := p];
    assert l'.Keys == l.Keys;
    SumWithout(l, l.Keys, m);
    SumWithout(l', l.Keys, m);
    SameWorthSameSum(l, l', l.Keys - {m});
  }

  /** What a step takes out of circulation: the ransom. */
  function Burned(t: Town, op: Op): int {
    if op.Release? && ReleaseRefusal(t, op.src, op.release, op.now).None?
    then FeeOf(t.ledger, op.src, op.release, op.now) else 0
  }

  lemma RentConserves(t: Town, src: int, q: RentRequest, now: int)
    requires RentRefusal(t, src, q, now).None?
    ensures Total(Rented(t, src, q, now).ledger) == Total(t.ledger)
    ensures Rented(t, src, q, now).ledger[src].money == t.ledger[src].money - RENT_FEE >= 0
    ensures
      var before, after := t.ledger[q.host.value].prison.value, Rented(t, src, q, now).ledger[q.host.value].prison;
      after.Some? && after.value.vault == before.vault + 500
    ensures Rented(t, src, q, now).ledger.Keys == t.ledger.Keys
    ensures forall m :: m in t.ledger && m != src ==> Rented(t, src, q, now).ledger[m].money == t.ledger[m].money
  {
    hide Active, NewRental;
    var p := Place(q.host.value, q.sector);
    var s := SectorAt(t.ledger, p).value;
    var s' := s.(slaves := Some(Active(Rentals(s), now) + [NewRental(src, q, now)]));
    var l1 := WithSector(t.ledger, p, s');
    var l2 := WithVault(l1, p.host, RENT_FEE);
    TotalUpdate(t.ledger, p.host, l1[p.host]);
    TotalUpdate(l1, p.host, l2[p.host]);
    TotalUpdate(l2, src, l2[src].(money := l2[src].money - RENT_FEE));
  }

  lemma ReleaseBurnsTheFee(t: Town, src: int, q: ReleaseRequest, now: int)
    requires ReleaseRefusal(t, src, q, now).None?
    ensures Total(Released(t, src, q, now).ledger) == Total(t.ledger) - FeeOf(t.ledger, src, q, now)
    ensures Released(t, src, q, now).ledger[src].money == t.ledger[src].money - FeeOf(t.ledger, src, q, now) >= 0
    ensures Released(t, src, q, now).ledger.Keys == t.ledger.Keys
    ensures forall m :: m in t.ledger && m != src ==> Released(t, src, q, now).ledger[m].money == t.ledger[m].money
  {
    hide RansomFee, Removed, FirstRental;
    var p := Place(q.host.value, q.sector);
    var s := SectorAt(t.ledger, p).value;
    var s' := s.(slaves := Some(Removed(Rentals(s), Wanted(t.ledger, src, q).value)));
    var l1 := WithSector(t.ledger, p, s');
    TotalUpdate(t.ledger, p.host, l1[p.host]);
    TotalUpdate(l1, src, l1[src].(money := l1[src].money - FeeOf(t.ledger, src, q, now)));
  }

  lemma StepConserves(t: Town, op: Op)
    ensures Total(Step(t, op).ledger) + Burned(t, op) == Total(t.ledger)
  {
    hide Sum, Rented, Released, RentRefusal, ReleaseRefusal, FeeOf, Overdue;
    match op
    case Rent(src, q, now) => if RentRefusal(t, src, q, now).None? { RentConserves(t, src, q, now); }
    case Release(src, q, now) => if ReleaseRefusal(t, src, q, now).None? { ReleaseBurnsTheFee(t, src, q, now); }
    case Expire(now) =>
      assert Swept(t.ledger, Places(t.at), now).Keys == t.ledger.Keys;
      SameWorthSameSum(t.ledger, Swept(t.ledger, Places(t.at), now), t.ledger.Keys);
    case _ =>
  }

  /** The ransoms paid over a run. */
  function AllBurned(t: Town, ops: seq<Op>): int
    decreases |ops|
  {
    if ops == [] then 0
    else AllBurned(t, ops[..|ops| - 1]) + Burned(Run(t, ops[..|ops| - 1]), ops[|ops| - 1])
  }

  /** Over every run, money only changes hands or is burned by ransoms. */
  lemma {:induction false} RunConserves(t: Town, ops: seq<Op>)
    ensures Total(Run(t, ops).ledger) + AllBurned(t, ops) == Total(t.ledger)
    decreases |ops|
  {
    if ops != [] {
      RunConserves(t, ops[..|ops| - 1]);
      StepConserves(Run(t, ops[..|ops| - 1]), ops[|ops| - 1]);
    }
  }

  ghost predicate NoDebts(t: Town) {
    forall m :: m in t.ledger ==> t.ledger[m].money >= 0
  }

  // ----- Capacity -----

  ghost predicate WithinCapacity(l: Ledger) {
    forall p :: SectorAt(l, p).Some? ==> |Rentals(SectorAt(l, p).value)| <= Capacity(SectorAt(l, p).value)
  }

  lemma {:induction false} ActiveOnly(slaves: seq<Rental>, now: int)
    ensures |Active(slaves, now)| <= |slaves|
    ensures forall r :: r in Active(slaves, now) <==> r in slaves && IsActive(r, now)
  {
    if slaves != [] {
      ActiveOnly(slaves[..|slaves| - 1], now);
      assert slaves == slaves[..|slaves| - 1] + [slaves[|slaves| - 1]];
    }
  }

  lemma StepKeepsCapacity(t: Town, op: Op)
    requires WithinCapacity(t.ledger)
    ensures WithinCapacity(Step(t, op).ledger)
  {
    hide SectorAt, Active, Rented, Released, Swept, FirstRental, FeeOf, Overdue;
    var l' := Step(t, op).ledger;
    match op
    case Rent(src, q, now) =>
      if RentRefusal(t, src, q, now).None? {
        forall p | SectorAt(l', p).Some?
          ensures |Rentals(SectorAt(l', p).value)| <= Capacity(SectorAt(l', p).value)
        {
          RentedSector(t, src, q, now, p);
        }
      }
    case Release(src, q, now) =>
      if ReleaseRefusal(t, src, q, now).None? {
        forall p | SectorAt(l', p).Some?
          ensures |Rentals(SectorAt(l', p).value)| <= Capacity(SectorAt(l', p).value)
        {
          ReleasedSector(t, src, q, now, p);
        }
      }
    case Expire(now) =>
      forall p | SectorAt(l', p).Some?
        ensures |Rentals(SectorAt(l', p).value)| <= Capacity(SectorAt(l', p).value)
      {
        SweptSector(t.ledger, Places(t.at), now, p);
        if SectorAt(t.ledger, p).Some? {
          ActiveOnly(Rentals(SectorAt(t.ledger, p).value), now);
        }
      }
    case _ =>
  }

  /** Nobody goes into debt and no sector over its capacity, however the requests come. */
  lemma {:induction false} RunKeepsLimits(t: Town, ops: seq<Op>)
    requires NoDebts(t) && WithinCapacity(t.ledger)
    ensures NoDebts(Run(t, ops)) && WithinCapacity(Run(t, ops).ledger)
    decreases |ops|
  {
    if ops != [] {
      var before := Run(t, ops[..|ops| - 1]);
      RunKeepsLimits(t, ops[..|ops| - 1]);
      StepKeepsCapacity(before, ops[|ops| - 1]);
      StepKeepsNoDebts(before, ops[|ops| - 1]);
    }
  }

  lemma StepKeepsNoDebts(t: Town, op: Op)
    requires NoDebts(t)
    ensures NoDebts(Step(t, op))
  {
    hide RentRefusal, ReleaseRefusal, FeeOf, Overdue, PrunedPrison;
    match op
    case Rent(src, q, now) => if RentRefusal(t, src, q, now).None? { RentConserves(t, src, q, now); }
    case Release(src, q, now) => if ReleaseRefusal(t, src, q, now).None? { ReleaseBurnsTheFee(t, src, q, now); }
    case _ =>
  }

  // ----- What a ransom costs over a run -----

  /** No rental runs for longer than a rental of that moment would. */
  ghost predicate OnTerms(l: Ledger, now: int) {
    forall p, r :: SectorAt(l, p).Some? && r in Rentals(SectorAt(l, p).value) ==> UntilOf(r) <= now + RENT_DURATION_MS
  }

  function TimeOf(op: Op): Option<int> {
    match op
    case Rent(_, _, now) => Some(now)
    case Release(_, _, now) => Some(now)
    case JoinSector(_, _, now) => Some(now)
    case Expire(now) => Some(now)
    case _ => None
  }

  /** The time after a run that begins at `start`. */
  function Clock(start: int, ops: seq<Op>): int {
    if ops == [] then start
    else if TimeOf(ops[|ops| - 1]).Some? then TimeOf(ops[|ops| - 1]).value
    else Clock(start, ops[..|ops| - 1])
  }

  /** The clock never runs back. */
  ghost predicate InOrder(start: int, ops: seq<Op>) {
    forall i :: 0 <= i < |ops| && TimeOf(ops[i]).Some? ==> Clock(start, ops[..i]) <= TimeOf(ops[i]).value
  }

  predicate FairRansom(fee: int) {
    fee == 0 || RANSOM_MIN <= fee <= RENT_FEE
  }

  /** No step leaves a rental beyond the terms of its moment, and none burns more than a rent costs. */
  lemma StepKeepsTerms(t: Town, op: Op, before: int, now: int)
    requires OnTerms(t.ledger, before) && before <= now && (TimeOf(op).Some? ==> TimeOf(op).value == now)
    ensures OnTerms(Step(t, op).ledger, now) && FairRansom(Burned(t, op))
  {
    hide SectorAt, Active, Rented, Released, Swept, FirstRental, RentRefusal, Expired;
    var l' := Step(t, op).ledger;
    forall p, r | SectorAt(l', p).Some? && r in Rentals(SectorAt(l', p).value)
      ensures UntilOf(r) <= now + RENT_DURATION_MS
    {
      RentalStems(t, op, p, r);
    }
    if op.Release? && ReleaseRefusal(t, op.src, op.release, now).None? {
      RansomIsFair(t, op.src, op.release, before, now);
    }
  }

  /** A rental after a step was there before it, or is the one made now. */
  lemma RentalStems(t: Town, op: Op, p: Place, r: Rental)
    requires SectorAt(Step(t, op).ledger, p).Some? && r in Rentals(SectorAt(Step(t, op).ledger, p).value)
    ensures
      || (SectorAt(t.ledger, p).Some? && r in Rentals(SectorAt(t.ledger, p).value))
      || (TimeOf(op).Some? && UntilOf(r) == TimeOf(op).value + RENT_DURATION_MS)
  {
    hide SectorAt, Active, Rented, Released, Swept, Wanted, RentRefusal, ReleaseRefusal;
    match op
    case Rent(src, q, now) =>
      if RentRefusal(t, src, q, now).None? {
        RentedStems(t, src, q, now, p, r);
      }
    case Release(src, q, now) =>
      if ReleaseRefusal(t, src, q, now).None? {
        ReleasedStems(t, src, q, now, p, r);
      }
    case Expire(now) =>
      SweptSector(t.ledger, Places(t.at), now, p);
      if SectorAt(t.ledger, p).Some? {
        ActiveOnly(Rentals(SectorAt(t.ledger, p).value), now);
      }
    case _ =>
  }

  lemma RentedStems(t: Town, src: int, q: RentRequest, now: int, p: Place, r: Rental)
    requires RentRefusal(t, src, q, now).None? && SectorAt(Rented(t, src, q, now).ledger, p).Some?
    requires r in Rentals(SectorAt(Rented(t, src, q, now).ledger, p).value)
    ensures SectorAt(t.ledger, p).Some?
    ensures r in Rentals(SectorAt(t.ledger, p).value) || UntilOf(r) == now + RENT_DURATION_MS
  {
    hide SectorAt, Active, Rented;
    RentedSector(t, src, q, now, p);
    ActiveOnly(Rentals(SectorAt(t.ledger, p).value), now);
  }

  lemma ReleasedStems(t: Town, src: int, q: ReleaseRequest, now: int, p: Place, r: Rental)
    requires ReleaseRefusal(t, src, q, now).None? && SectorAt(Released(t, src, q, now).ledger, p).Some?
    requires r in Rentals(SectorAt(Released(t, src, q, now).ledger, p).value)
    ensures SectorAt(t.ledger, p).Some? && r in Rentals(SectorAt(t.ledger, p).value)
  {
    hide SectorAt, Released, FeeOf, FirstRental;
    ReleasedSector(t, src, q, now, p);
  }

  lemma RansomIsFair(t: Town, src: int, q: ReleaseRequest, before: int, now: int)
    requires OnTerms(t.ledger, before) && before <= now && ReleaseRefusal(t, src, q, now).None?
    ensures FairRansom(FeeOf(t.ledger, src, q, now))
  {
    hide SectorAt, FirstRental, RansomFee;
    var slaves := Rentals(SectorAt(t.ledger, Place(q.host.value, q.sector)).value);
    var r := slaves[Wanted(t.ledger, src, q).value];
    assert r in slaves;
    FeeInRange(UntilOf(r), now, now);
  }

  /** With a clock that never runs back, no rental of a run is ever beyond its terms, and every ransom of the run
      is nothing or between the minimum and the rent. */
  lemma {:induction false} RansomsAreFair(t: Town, start: int, ops: seq<Op>)
    requires OnTerms(t.ledger, start) && InOrder(start, ops)
    ensures OnTerms(Run(t, ops).ledger, Clock(start, ops))
    ensures forall i :: 0 <= i < |ops| ==> FairRansom(Burned(Run(t, ops[..i]), ops[i]))
    ensures 0 <= AllBurned(t, ops) <= RENT_FEE * |ops|
    decreases |ops|
  {
    hide OnTerms, Step, Burned, InOrder, TimeOf;
    if ops != [] {
      var front, last := ops[..|ops| - 1], ops[|ops| - 1];
      OrderOfFront(start, ops);
      RansomsAreFair(t, start, front);
      StepKeepsTerms(Run(t, front), last, Clock(start, front), Clock(start, ops));
      forall i | 0 <= i < |ops| ensures FairRansom(Burned(Run(t, ops[..i]), ops[i])) {
        assert i < |front| ==> front[..i] == ops[..i] && front[i] == ops[i];
      }
    }
  }

  lemma OrderOfFront(start: int, ops: seq<Op>)
    requires ops != [] && InOrder(start, ops)
    ensures
      var front, last := ops[..|ops| - 1], ops[|ops| - 1];
      && InOrder(start, front) && Clock(start, front) <= Clock(start, ops)
      && (TimeOf(last).Some? ==> TimeOf(last).value == Clock(start, ops))
  {
    hide TimeOf;
    var front := ops[..|ops| - 1];
    assert forall i :: 0 <= i < |front| ==> front[..i] == ops[..i] && front[i] == ops[i];
  }

  // ----- Who may be in a sector -----

  /** `g` is the host of the sector it is in, or has a rental there for working in person. */
  predicate IsPaidGuest(t: Town, g: int)
    requires g in t.at
  {
    var p := t.at[g];
    g == p.host
    || (SectorAt(t.ledger, p).Some?
        && exists r :: r in Rentals(SectorAt(t.ledger, p).value) && r.renter == Some(g) && r.role == Self)
  }

  ghost predicate GuestsHavePaid(t: Town) {
    forall g :: g in t.at ==> IsPaidGuest(t, g)
  }

  predicate HasRunningRental(l: Ledger, p: Place, g: int, now: int) {
    SectorAt(l, p).Some? && exists r :: r in Rentals(SectorAt(l, p).value) && Admits(r, g, now)
  }

  /** Renting drops the rentals of that sector that have run out, and leaves their guests there. */
  predicate LeavesNobodyUnpaid(t: Town, src: int, q: RentRequest, now: int)
    requires q.host.Some? && q.sector >= 0
  {
    var p := Place(q.host.value, q.sector);
    forall g :: g in t.at && t.at[g] == p ==>
      g == p.host || (q.forSelf && g == src) || HasRunningRental(t.ledger, p, g, now)
  }

  /** A rent keeps every guest paid for exactly when each guest of that sector is the host, the renter, or
      has a rental that is still running. */
  lemma RentKeepsGuestsPaidIff(t: Town, src: int, q: RentRequest, now: int)
    requires GuestsHavePaid(t) && RentRefusal(t, src, q, now).None?
    ensures GuestsHavePaid(Rented(t, src, q, now)) <==> LeavesNobodyUnpaid(t, src, q, now)
  {
    var here := Place(q.host.value, q.sector);
    hide SectorAt, Active, WithVault, WithMoney, WithSector, RentRefusal;
    var t' := Rented(t, src, q, now);
    forall g | g in t.at
      ensures IsPaidGuest(t', g) <==> (t.at[g] != here || g == here.host || (q.forSelf && g == src)
                                       || HasRunningRental(t.ledger, here, g, now))
    {
      RentedSector(t, src, q, now, t.at[g]);
      if t.at[g] == here {
        PaidAfterRent(t, src, q, now, g);
      } else {
        assert IsPaidGuest(t, g);
      }
    }
  }

  /** It does happen: the guest's rental ran out, another's rent drops it, and the next sweep finds nothing
      to end the visit by. */
  lemma GuestWithoutRental(t: Town, p: Place, g: int, src: int, q: RentRequest, now: int)
    requires g in t.at && t.at[g] == p && SectorAt(t.ledger, p).Some? && g != p.host && g != src
    requires Rentals(SectorAt(t.ledger, p).value) == [Rental(Some(g), Self, -1, Some(now))] && now > 0
    requires q.host == Some(p.host) && q.sector == p.sector && RentRefusal(t, src, q, now).None?
    ensures IsPaidGuest(t, g)
    ensures
      var t' := Step(Step(t, Rent(src, q, now)), Expire(now + 1));
      g in t'.at && t'.at[g] == p && !IsPaidGuest(t', g)
  {
    var slaves := Rentals(SectorAt(t.ledger, p).value);
    assert slaves[..0] == [] && slaves[0] in slaves;
    assert Active(slaves, now) == [];
    RentedSector(t, src, q, now, p);
    var t1 := Rented(t, src, q, now);
    var renewed := [NewRental(src, q, now)];
    assert Rentals(SectorAt(t1.ledger, p).value) == renewed;
    assert renewed[..0] == [] && Active(renewed, now + 1) == renewed;
    hide SectorAt, WithVault, WithSector, WithMoney, Swept, RentRefusal;
    SweptSector(t1.ledger, Places(t1.at), now + 1, p);
  }

  lemma PaidAfterRent(t: Town, src: int, q: RentRequest, now: int, g: int)
    requires RentRefusal(t, src, q, now).None? && g in t.at && t.at[g] == Place(q.host.value, q.sector)
    ensures IsPaidGuest(Rented(t, src, q, now), g) <==>
      g == q.host.value || (q.forSelf && g == src) || HasRunningRental(t.ledger, t.at[g], g, now)
  {
    hide SectorAt, WithVault, WithMoney, WithSector, Active;
    var p := t.at[g];
    RentedSector(t, src, q, now, p);
    var slaves := Rentals(SectorAt(t.ledger, p).value);
    ActiveOnly(slaves, now);
    var kept := Active(slaves, now);
    var rentals := kept + [NewRental(src, q, now)];
    assert forall r :: r in rentals <==> r in kept || r == NewRental(src, q, now);
    assert Rentals(SectorAt(Rented(t, src, q, now).ledger, p).value) == rentals;
  }

  lemma ReleaseKeepsGuestsPaid(t: Town, src: int, q: ReleaseRequest, now: int)
    requires GuestsHavePaid(t) && ReleaseRefusal(t, src, q, now).None?
    ensures GuestsHavePaid(Released(t, src, q, now))
  {
    var here := Place(q.host.value, q.sector);
    assert Wanted(t.ledger, src, q).Some? && SectorAt(t.ledger, here).Some?;
    hide SectorAt, FirstRental, ReleaseRefusal, WithMoney, WithSector, FeeOf;
    var t' := Released(t, src, q, now);
    forall g | g in t'.at ensures IsPaidGuest(t', g) {
      assert IsPaidGuest(t, g);
      ReleasedSector(t, src, q, now, t.at[g]);
      var slaves := Rentals(SectorAt(t.ledger, here).value);
      if t.at[g] == here && g != here.host {
        WantedIsTheTargets(t.ledger, src, q);
        var r :| r in slaves && r.renter == Some(g) && r.role == Self;
        OtherStays(slaves, Wanted(t.ledger, src, q).value, r);
      }
    }
  }

  lemma WantedIsTheTargets(l: Ledger, src: int, q: ReleaseRequest)
    requires q.host.Some? && q.sector >= 0 && Wanted(l, src, q).Some?
    ensures Rentals(SectorAt(l, Place(q.host.value, q.sector)).value)[Wanted(l, src, q).value].renter
         == Some(Target(src, q))
  {
  }

  /** The sweep leaves in the sectors only hosts and guests whose rental is still running. */
  lemma SweepEvicts(t: Town, now: int)
    requires GuestsHavePaid(t)
    ensures
      var t' := Expired(t, now);
      && GuestsHavePaid(t')
      && forall g :: g in t'.at ==> g == t'.at[g].host || HasRunningRental(t'.ledger, t'.at[g], g, now)
  {
    hide SectorAt, Active, Swept;
    var t' := Expired(t, now);
    forall g | g in t'.at
      ensures IsPaidGuest(t', g) && (g == t'.at[g].host || HasRunningRental(t'.ledger, t'.at[g], g, now))
    {
      var p := t.at[g];
      assert IsPaidGuest(t, g) && p in Places(t.at);
      SweptSector(t.ledger, Places(t.at), now, p);
      if g != p.host {
        var slaves := Rentals(SectorAt(t.ledger, p).value);
        ActiveOnly(slaves, now);
        var r :| r in slaves && r.renter == Some(g) && r.role == Self;
        assert IsActive(r, now);
        assert Rentals(SectorAt(t'.ledger, p).value) == Active(slaves, now);
      }
    }
  }

  lemma StepKeepsGuestsPaid(t: Town, op: Op)
    requires GuestsHavePaid(t)
    requires op.Rent? && RentRefusal(t, op.src, op.rent, op.now).None? ==>
      LeavesNobodyUnpaid(t, op.src, op.rent, op.now)
    ensures GuestsHavePaid(Step(t, op))
  {
    hide SectorAt, Rented, Released, Expired, RentRefusal, ReleaseRefusal, LeavesNobodyUnpaid;
    match op
    case Rent(src, q, now) => if RentRefusal(t, src, q, now).None? { RentKeepsGuestsPaidIff(t, src, q, now); }
    case Release(src, q, now) => if ReleaseRefusal(t, src, q, now).None? { ReleaseKeepsGuestsPaid(t, src, q, now); }
    case Expire(now) => SweepEvicts(t, now);
    case _ => assert forall g :: g in Step(t, op).at && g in t.at && Step(t, op).at[g] == t.at[g] ==> IsPaidGuest(t, g);
  }

  /** Over every run whose rents leave nobody unpaid, only hosts and members with a rental are in a sector,
      and all of them are online. */
  lemma {:induction false} OnlyPaidGuests(t: Town, ops: seq<Op>)
    requires GuestsHavePaid(t) && t.at.Keys <= t.online
    requires forall i :: 0 <= i < |ops| && ops[i].Rent? ==>
      RentRefusal(Run(t, ops[..i]), ops[i].src, ops[i].rent, ops[i].now).None? ==>
        LeavesNobodyUnpaid(Run(t, ops[..i]), ops[i].src, ops[i].rent, ops[i].now)
    ensures GuestsHavePaid(Run(t, ops)) && Run(t, ops).at.Keys <= Run(t, ops).online
    decreases |ops|
  {
    if ops != [] {
      hide LeavesNobodyUnpaid, RentRefusal, ReleaseRefusal;
      var before := ops[..|ops| - 1];
      assert forall i :: 0 <= i < |before| ==> before[..i] == ops[..i];
      OnlyPaidGuests(t, before);
      StepKeepsGuestsPaid(Run(t, before), ops[|ops| - 1]);
    }
  }

  /** A release takes one rental out of its sector, the first of that renter in that role, and leaves all
      other sectors as they were. */
  lemma ReleaseTakesOne(t: Town, src: int, q: ReleaseRequest, now: int)
    requires ReleaseRefusal(t, src, q, now).None?
    ensures
      var p := Place(q.host.value, q.sector);
      var l, l' := t.ledger, Released(t, src, q, now).ledger;
      var i := Wanted(l, src, q).value;
      && SectorAt(l', p).Some?
      && var all, left := Rentals(SectorAt(l, p).value), Rentals(SectorAt(l', p).value);
        && multiset(left) + multiset{all[i]} == multiset(all) && left[..i] == all[..i]
        && IsRentalOf(all[i], Target(src, q), RoleOf(q), q.privateIndex)
        && (forall k :: 0 <= k < i ==> !IsRentalOf(all[k], Target(src, q), RoleOf(q), q.privateIndex))
        && (forall other :: other != p ==> SectorAt(l', other) == SectorAt(l, other))
  {
    var p := Place(q.host.value, q.sector);
    ReleasedSector(t, src, q, now, p);
    var all := Rentals(SectorAt(t.ledger, p).value);
    var i := Wanted(t.ledger, src, q).value;
    assert all == all[..i] + [all[i]] + all[i + 1..];
    hide SectorAt, Released;
    forall other | other != p ensures SectorAt(Released(t, src, q, now).ledger, other) == SectorAt(t.ledger, other) {
      ReleasedSector(t, src, q, now, other);
    }
  }

  // ----- Requests by their fields -----

  /** Its time is over. */
  predicate RanOut(r: Rental, now: int) {
    r.until.Some? && 0 < r.until.value <= now
  }

  /** The rentals kept are those still running, in order. */
  lemma {:induction false} ActiveKeeps(slaves: seq<Rental>, now: int) returns (at: seq<nat>)
    ensures Ascending(at, |slaves|) && |Active(slaves, now)| == |at|
    ensures forall k: nat :: k < |slaves| ==> (k in at <==> !RanOut(slaves[k], now))
    ensures forall i :: 0 <= i < |at| ==> Active(slaves, now)[i] == slaves[at[i]]
  {
    hide RanOut, IsActive, Ascending;
    at := [];
    if slaves != [] {
      var n := |slaves| - 1;
      var before := ActiveKeeps(slaves[..n], now);
      AscendingSnoc(before, n);
      ActiveIff(slaves[n], now);
      at := if RanOut(slaves[n], now) then before else before + [n];
      forall k: nat | k < |slaves| ensures k in at <==> !RanOut(slaves[k], now) {
        assert k < n ==> slaves[..n][k] == slaves[k];
      }
    } else {
      NoneAscending();
    }
  }

  lemma ActiveIff(r: Rental, now: int)
    ensures IsActive(r, now) <==> !RanOut(r, now)
  {
  }

  /** Exactly when a rent passes, and what it leaves: the running rentals of the sector in order, and a new one
      for a day. */
  lemma RentPassesIff(t: Town, src: int, q: RentRequest, now: int) returns (at: seq<nat>)
    ensures
      RentRefusal(t, src, q, now).None? <==>
        && q.host.Some? && q.sector >= 0 && q.host.value != src && src in t.online && src in t.ledger
        && q.host.value in t.ledger && t.ledger[src].money >= 500
        && var prison := t.ledger[q.host.value].prison;
          && prison.Some? && prison.value.owned && prison.value.isPublic
          && (q.forSelf || 1 <= q.privateIndex <= q.npcs)
          && prison.value.sectors.Some? && q.sector < |prison.value.sectors.value|
          && var s := prison.value.sectors.value[q.sector];
            && s.unlocked && s.hasOverseer
            && |at| < (if s.base > 5 then s.base else 5) + (if s.extra > 0 then s.extra else 0)
    ensures RentRefusal(t, src, q, now).None? ==>
      var p := Place(q.host.value, q.sector);
      && SectorAt(t.ledger, p).Some? && SectorAt(Rented(t, src, q, now).ledger, p).Some?
      && var slaves, slaves' := Rentals(SectorAt(t.ledger, p).value),
                                Rentals(SectorAt(Rented(t, src, q, now).ledger, p).value);
        && Ascending(at, |slaves|) && (forall k: nat :: k < |slaves| ==> (k in at <==> !RanOut(slaves[k], now)))
        && |slaves'| == |at| + 1 && (forall i :: 0 <= i < |at| ==> slaves'[i] == slaves[at[i]])
        && slaves'[|at|].renter == Some(src) && slaves'[|at|].until == Some(now + 24 * 60 * 60 * 1000)
        && (if q.forSelf then slaves'[|at|].role == Self && slaves'[|at|].privateIndex == -1
            else slaves'[|at|].role == Slave && slaves'[|at|].privateIndex == q.privateIndex)
  {
    at := [];
    if q.host.Some? && q.sector >= 0 && SectorAt(t.ledger, Place(q.host.value, q.sector)).Some? {
      var p := Place(q.host.value, q.sector);
      at := ActiveKeeps(Rentals(SectorAt(t.ledger, p).value), now);
      if RentRefusal(t, src, q, now).None? {
        RentedSector(t, src, q, now, p);
      }
    }
  }

  /** Exactly when a release passes: the host dismisses a rental of a prison of their own, or a renter who is
      there in person ransoms themselves and can pay. */
  lemma ReleasePassesIff(t: Town, src: int, q: ReleaseRequest, now: int)
    ensures
      ReleaseRefusal(t, src, q, now).None? <==>
        && q.host.Some? && q.sector >= 0 && src in t.online && src in t.ledger && q.host.value in t.ledger
        && t.ledger[q.host.value].prison.Some? && SectorAt(t.ledger, Place(q.host.value, q.sector)).Some?
        && (exists r :: r in Rentals(SectorAt(t.ledger, Place(q.host.value, q.sector)).value)
              && r.renter == (if q.target.Some? then q.target else Some(src))
              && (if q.forSlave then r.role == Slave && r.privateIndex == q.privateIndex else r.role == Self))
        && ((q.kind == OwnerDismiss && src == q.host.value)
            || (q.kind == SelfRansom && !q.forSlave && (q.target.None? || q.target.value == src)
                && FeeOf(t.ledger, src, q, now) <= t.ledger[src].money))
        && (q.kind == OwnerDismiss ==> 0 <= t.ledger[src].money)
  {
    hide RansomFee, FirstRental, SectorAt;
    if q.host.Some? && q.sector >= 0 && SectorAt(t.ledger, Place(q.host.value, q.sector)).Some? {
      var slaves := Rentals(SectorAt(t.ledger, Place(q.host.value, q.sector)).value);
      assert forall r :: r in slaves ==> exists k :: 0 <= k < |slaves| && slaves[k] == r;
      assert FirstRental(slaves, Target(src, q), RoleOf(q), q.privateIndex) == Wanted(t.ledger, src, q);
    }
  }

  /** A member may work in a sector exactly if it is unlocked and theirs, or they have a running rental there. */
  lemma JoinPassesIff(t: Town, src: int, p: Place, now: int)
    ensures
      JoinRefusal(t, src, p, now).None? <==>
        && src in t.online && SectorAt(t.ledger, p).Some? && SectorAt(t.ledger, p).value.unlocked
        && (src == p.host
            || exists r :: r in Rentals(SectorAt(t.ledger, p).value)
                 && r.renter == Some(src) && r.role == Self && !RanOut(r, now))
  {
    hide SectorAt;
    if SectorAt(t.ledger, p).Some? {
      assert forall r :: r in Rentals(SectorAt(t.ledger, p).value) ==>
        (Admits(r, src, now) <==> r.renter == Some(src) && r.role == Self && !RanOut(r, now));
    }
  }

  /** A sweep sends out exactly those with a rental in their sector that ran out, and leaves the others where
      they are. */
  lemma SweepSendsOutIff(t: Town, now: int, m: int)
    ensures
      var at' := Expired(t, now).at;
      && (m in at' ==> m in t.at && at'[m] == t.at[m])
      && (m in t.at ==>
            (m !in at' <==>
             && SectorAt(t.ledger, t.at[m]).Some?
             && exists r :: r in Rentals(SectorAt(t.ledger, t.at[m]).value)
                  && RanOut(r, now) && r.renter == Some(m) && r.role in {Self, Slave}))
  {
    hide SectorAt;
    if m in t.at && SectorAt(t.ledger, t.at[m]).Some? {
      assert forall r :: IsActive(r, now) <==> !RanOut(r, now);
    }
  }

  /** Where a member is after a step: a join that passes brings them in, a leave from that sector, a logout, a
      release of them there and a sweep after their time take them out, and nothing else moves anybody. */
  lemma VisitsAfter(t: Town, op: Op, m: int)
    ensures
      var at' := Step(t, op).at;
      if op.JoinSector? && op.src == m && JoinRefusal(t, m, op.place, op.now).None? then
        m in at' && at'[m] == op.place
      else
        var out := m in t.at && match op
          case LeaveSector(src, p) => src == m && m in t.online && t.at[m] == p
          case Logout(x) => x == m && m in t.online
          case Release(src, q, now) =>
            && ReleaseRefusal(t, src, q, now).None? && t.at[m] == Place(q.host.value, q.sector)
            && m == (if q.target.Some? then q.target.value else src)
          case Expire(now) => m !in Expired(t, now).at
          case _ => false;
        (m in at' <==> m in t.at && !out) && (m in at' ==> at'[m] == t.at[m])
  {
    hide JoinRefusal, ReleaseRefusal, RentRefusal, WithSector, Swept, Overdue, FeeOf;
    match op
    case Expire(now) => SweepSendsOutIff(t, now, m);
    case _ =>
  }

  /** Who is online after a step; no request makes or removes an account. */
  lemma SessionsAfter(t: Town, op: Op, m: int)
    ensures Step(t, op).ledger.Keys == t.ledger.Keys
    ensures m in Step(t, op).online <==> (m in t.online && op != Logout(m)) || (op == Login(m) && m in t.ledger)
  {
    hide RentRefusal, ReleaseRefusal, JoinRefusal, SectorAt, PrunedPrison, FeeOf, Overdue;
    match op
    case Rent(src, q, now) => if RentRefusal(t, src, q, now).None? { RentConserves(t, src, q, now); }
    case Release(src, q, now) => if ReleaseRefusal(t, src, q, now).None? { ReleaseBurnsTheFee(t, src, q, now); }
    case _ =>
  }

  // ----- Who may end a rental -----

  /** How many of that very rental the sector at `p` has. */
  function CountOf(l: Ledger, p: Place, r: Rental): nat {
    if SectorAt(l, p).Some? then multiset(Rentals(SectorAt(l, p).value))[r] else 0
  }

  /** The host of the sector dismisses its renter, or its renter in person ransoms themselves. */
  predicate MayEnd(op: Op, p: Place, r: Rental) {
    && op.Release? && op.release.host == Some(p.host) && op.release.sector == p.sector && r.renter.Some?
    && ((op.release.kind == OwnerDismiss && op.src == p.host
         && r.renter.value == (if op.release.target.Some? then op.release.target.value else op.src))
        || (op.release.kind == SelfRansom && r.renter == Some(op.src) && r.role == Self))
  }

  /** `fee` is the least amount from 100 up that covers 500 a day for the time left, or nothing when the rental
      has no time of its own. */
  predicate LeastFee(fee: int, r: Rental, now: int) {
    var left := (if r.until.Some? then r.until.value else 0) - now;
    if left <= 0 then fee == 0
    else
      && fee >= 100 && fee * 86_400_000 >= 500 * left
      && (fee > 100 ==> (fee - 1) * 86_400_000 < 500 * left)
  }

  /** A running rental ends only by its host's dismissal or its own renter's ransom, one at a time, and who is
      ransomed pays the least covering fee. */
  lemma RunningEndsOnlySo(t: Town, op: Op, p: Place, r: Rental)
    requires TimeOf(op).Some? ==> !RanOut(r, TimeOf(op).value)
    requires CountOf(Step(t, op).ledger, p, r) < CountOf(t.ledger, p, r)
    ensures MayEnd(op, p, r) && CountOf(Step(t, op).ledger, p, r) == CountOf(t.ledger, p, r) - 1
    ensures op.src in t.ledger && op.src in Step(t, op).ledger
    ensures
      var fee := t.ledger[op.src].money - Step(t, op).ledger[op.src].money;
      if op.release.kind == SelfRansom then LeastFee(fee, r, op.now) else fee == 0
  {
    hide SectorAt, Active, Rented, Released, Swept, RentRefusal, ReleaseRefusal, Expired;
    match op
    case Rent(src, q, now) =>
      if RentRefusal(t, src, q, now).None? {
        RentKeepsRunning(t, src, q, now, p, r);
      }
    case Release(src, q, now) =>
      if ReleaseRefusal(t, src, q, now).None? {
        ReleaseEnds(t, src, q, now, p, r);
      }
    case Expire(now) => SweepKeepsRunning(t, now, p, r);
    case _ =>
  }

  lemma {:induction false} ActiveCount(slaves: seq<Rental>, now: int, r: Rental)
    requires !RanOut(r, now)
    ensures multiset(Active(slaves, now))[r] == multiset(slaves)[r]
  {
    if slaves != [] {
      ActiveCount(slaves[..|slaves| - 1], now, r);
      assert slaves == slaves[..|slaves| - 1] + [slaves[|slaves| - 1]];
    }
  }

  lemma RentKeepsRunning(t: Town, src: int, q: RentRequest, now: int, p: Place, r: Rental)
    requires RentRefusal(t, src, q, now).None? && !RanOut(r, now)
    ensures CountOf(Rented(t, src, q, now).ledger, p, r) >= CountOf(t.ledger, p, r)
  {
    hide SectorAt, Active, Rented;
    RentedSector(t, src, q, now, p);
    if SectorAt(t.ledger, p).Some? {
      ActiveCount(Rentals(SectorAt(t.ledger, p).value), now, r);
    }
  }

  lemma SweepKeepsRunning(t: Town, now: int, p: Place, r: Rental)
    requires !RanOut(r, now)
    ensures CountOf(Expired(t, now).ledger, p, r) == CountOf(t.ledger, p, r)
  {
    hide SectorAt, Active, Swept;
    SweptSector(t.ledger, Places(t.at), now, p);
    if SectorAt(t.ledger, p).Some? {
      ActiveCount(Rentals(SectorAt(t.ledger, p).value), now, r);
    }
  }

  lemma ReleaseEnds(t: Town, src: int, q: ReleaseRequest, now: int, p: Place, r: Rental)
    requires ReleaseRefusal(t, src, q, now).None?
    requires CountOf(Released(t, src, q, now).ledger, p, r) < CountOf(t.ledger, p, r)
    ensures MayEnd(Release(src, q, now), p, r)
    ensures CountOf(Released(t, src, q, now).ledger, p, r) == CountOf(t.ledger, p, r) - 1
    ensures src in t.ledger && src in Released(t, src, q, now).ledger
    ensures
      var fee := t.ledger[src].money - Released(t, src, q, now).ledger[src].money;
      if q.kind == SelfRansom then LeastFee(fee, r, now) else fee == 0
  {
    hide SectorAt, Released, FirstRental, RansomFee;
    ReleaseTakesOne(t, src, q, now);
    ReleaseBurnsTheFee(t, src, q, now);
    var i := Wanted(t.ledger, src, q).value;
    var all := Rentals(SectorAt(t.ledger, Place(q.host.value, q.sector)).value);
    assert r == all[i];
    FeeIsLeastFee(r, now);
  }

  lemma FeeIsLeastFee(r: Rental, now: int)
    ensures LeastFee(RansomFee(UntilOf(r), now), r, now)
  {
  }

  /** Over every run, whatever others request, a rental stays while it runs, until its host dismisses it or its
      own renter is ransomed. */
  lemma {:induction false} NobodyElseEnds(t: Town, ops: seq<Op>, p: Place, r: Rental)
    requires forall op :: op in ops ==> !MayEnd(op, p, r) && (TimeOf(op).Some? ==> !RanOut(r, TimeOf(op).value))
    ensures CountOf(Run(t, ops).ledger, p, r) >= CountOf(t.ledger, p, r)
    decreases |ops|
  {
    hide MayEnd, Step, CountOf, RanOut, TimeOf;
    if ops != [] {
      var before := Run(t, ops[..|ops| - 1]);
      NobodyElseEnds(t, ops[..|ops| - 1], p, r);
      if CountOf(Step(before, ops[|ops| - 1]).ledger, p, r) < CountOf(before.ledger, p, r) {
        RunningEndsOnlySo(before, ops[|ops| - 1], p, r);
      }
    }
  }

  // ----- The sweep, sector by sector -----

  lemma {:induction false} LapsedOnly(slaves: seq<Rental>, now: int)
    ensures forall r :: r in Lapsed(slaves, now) <==> r in slaves && !IsActive(r, now)
    ensures Lapsed(slaves, now) == [] ==> Active(slaves, now) == slaves
  {
    if slaves != [] {
      var front, last := slaves[..|slaves| - 1], slaves[|slaves| - 1];
      LapsedOnly(front, now);
      assert slaves == front + [last];
    }
  }

  /** Sweeping one more sector is one more write. */
  lemma SweepOne(l: Ledger, done: set<Place>, p: Place, now: int)
    requires p !in done
    ensures SectorAt(l, p) == SectorAt(Swept(l, done, now), p)
    ensures Swept(l, done + {p}, now) ==
      if SectorAt(l, p).Some? then WithSector(Swept(l, done, now), p, Pruned(SectorAt(l, p).value, now))
      else Swept(l, done, now)
  {
    hide Pruned;
    SweptSector(l, done, now, p);
    var more := Swept(l, done + {p}, now);
    var want := if SectorAt(l, p).Some? then WithSector(Swept(l, done, now), p, Pruned(SectorAt(l, p).value, now))
                else Swept(l, done, now);
    assert more.Keys == want.Keys == l.Keys;
    forall h | h in l ensures more[h] == want[h] {
      if l[h].prison.Some? && l[h].prison.value.sectors.Some? {
        var a, b := more[h].prison.value.sectors.value, want[h].prison.value.sectors.value;
        assert |a| == |b|;
        assert forall i :: 0 <= i < |a| ==> a[i] == b[i];
        assert a == b;
      }
    }
  }

  lemma SweptNothing(l: Ledger, now: int)
    ensures Swept(l, {}, now) == l
  {
    forall h | h in l ensures Swept(l, {}, now)[h] == l[h] {
      if l[h].prison.Some? && l[h].prison.value.sectors.Some? {
        var a, b := Swept(l, {}, now)[h].prison.value.sectors.value, l[h].prison.value.sectors.value;
        assert a == b;
      }
    }
  }

  /** The registry once the sectors `done` have been swept. */
  function Cleared(l: Ledger, at: map<int, Place>, done: set<Place>, now: int): map<int, Place> {
    map m | m in at && !(at[m] in done && Overdue(l, at[m], m, now)) :: at[m]
  }

  /** The registry after the rentals in `gone` have each sent their renter out of the sector at `p`. */
  function SentOut(at: map<int, Place>, p: Place, gone: seq<Rental>): map<int, Place> {
    map m | m in at && !(at[m] == p && exists r :: r in gone && r.renter == Some(m) && r.role in {Self, Slave}) :: at[m]
  }

  lemma SentOutOneMore(at: map<int, Place>, p: Place, gone: seq<Rental>, r: Rental)
    ensures SentOut(at, p, gone + [r]) ==
      if r.renter.Some? && r.role in {Self, Slave} then Gone(SentOut(at, p, gone), p, r.renter.value)
      else SentOut(at, p, gone)
  {
    assert forall x :: x in gone + [r] <==> x in gone || x == r;
  }

  lemma ClearedOneMore(l: Ledger, at: map<int, Place>, done: set<Place>, p: Place, now: int)
    requires p !in done
    ensures Cleared(l, at, done + {p}, now) ==
      if SectorAt(l, p).Some? then SentOut(Cleared(l, at, done, now), p, Lapsed(Rentals(SectorAt(l, p).value), now))
      else Cleared(l, at, done, now)
  {
    hide SectorAt, Lapsed;
    if SectorAt(l, p).Some? {
      LapsedOnly(Rentals(SectorAt(l, p).value), now);
    }
  }

  /** The rental taken out and the prison without it. */
  function RemovePrisonRental(prison: Prison, sector: nat, renter: int, role: Role, privateIndex: int)
    : (r: Option<(Rental, Prison)>)
  {
    if prison.sectors.None? || sector >= |prison.sectors.value| || prison.sectors.value[sector].slaves.None? then None
    else
      var slaves := prison.sectors.value[sector].slaves.value;
      var i := FirstRental(slaves, renter, role, privateIndex);
      if i.None? then None
      else
        var sector' := prison.sectors.value[sector].(slaves := Some(Removed(slaves, i.value)));
        Some((slaves[i.value], prison.(sectors := Some(prison.sectors.value[sector := sector']))))
  }

  lemma RemovalIsOfTheWanted(l: Ledger, src: int, q: ReleaseRequest, now: int)
    requires q.host.Some? && q.sector >= 0 && q.host.value in l && l[q.host.value].prison.Some?
    ensures
      var prison := l[q.host.value].prison.value;
      var removed := RemovePrisonRental(prison, q.sector, Target(src, q), RoleOf(q), q.privateIndex);
      var w := Wanted(l, src, q);
      && (removed.None? <==> w.None?)
      && (w.Some? ==>
            var p := Place(q.host.value, q.sector);
            var s := SectorAt(l, p).value;
            && FeeOf(l, src, q, now) == (if q.kind == SelfRansom then RansomFee(UntilOf(removed.value.0), now) else 0)
            && l[p.host := l[p.host].(prison := Some(removed.value.1))]
               == WithSector(l, p, s.(slaves := Some(Removed(Rentals(s), w.value)))))
  {
    hide Removed, RansomFee;
  }

  // ----- The handlers -----

  /** Purses in memory for the accounts online and in the store for all, and the sector sessions. */
  class PrisonDesk {
    var online: map<int, Purse>
    var store: map<int, Purse>
    const registry: SectorRegistry

    ghost predicate Valid()
      reads this, registry
    {
      && registry.Valid()
      && forall m :: m in online ==> m in store && online[m] == store[m]
    }

    ghost function State(): Town
      reads this, registry
    {
      Town(store, registry.at, online.Keys)
    }

    constructor (accounts: map<int, Purse>)
      ensures Valid() && State() == Town(accounts, map[], {}) && fresh(registry)
    {
      online, store := map[], accounts;
      registry := new SectorRegistry();
    }

    method LoadPrisonHost(m: int) returns (host: Option<Purse>)
      requires Valid()
      ensures host == if m in store then Some(store[m]) else None
    {
      if m in online {
        host := Some(online[m]);
      } else {
        host := if m in store then Some(store[m]) else None;
      }
    }

    /** Splits rentals into those still running and those that have run out, in order. */
    static method RetainActive(slaves: seq<Rental>, now: int) returns (kept: seq<Rental>, lapsed: seq<Rental>)
      ensures kept == Active(slaves, now) && lapsed == Lapsed(slaves, now)
    {
      kept, lapsed := [], [];
      for i := 0 to |slaves|
        invariant kept == Active(slaves[..i], now) && lapsed == Lapsed(slaves[..i], now)
      {
        assert slaves[..i + 1][..i] == slaves[..i];
        if IsActive(slaves[i], now) {
          kept := kept + [slaves[i]];
        } else {
          lapsed := lapsed + [slaves[i]];
        }
      }
      assert slaves[..|slaves|] == slaves;
    }

    /** Writes the prison to the store and, while its owner is online, to memory. */
    method SavePrison(host: int, prison: Prison)
      requires Valid() && host in store
      modifies this
      ensures Valid() && online.Keys == old(online.Keys)
      ensures store == old(store)[host := old(store)[host].(prison := Some(prison))]
    {
      store := store[host := store[host].(prison := Some(prison))];
      if host in online {
        online := online[host := online[host].(prison := Some(prison))];
      }
    }

    method SaveMoney(m: int, money: int)
      requires Valid() && m in store
      modifies this
      ensures Valid() && online.Keys == old(online.Keys) && store == WithMoney(old(store), m, money)
    {
      store := store[m := store[m].(money := money)];
      if m in online {
        online := online[m := online[m].(money := money)];
      }
    }

    method HandlePrisonRent(src: int, q: RentRequest, now: int) returns (refusal: Option<Refusal>)
      requires Valid()
      modifies this
      ensures Valid() && refusal == RentRefusal(old(State()), src, q, now)
      ensures State() == Step(old(State()), Rent(src, q, now))
    {
      hide Active;
      if q.host.None? || q.sector < 0 {
        return Some(BadRequest);
      }
      if src !in online {
        return Some(Offline);
      }
      var renter := online[src];
      if src == q.host.value {
        return Some(BadRequest);
      }
      var host := LoadPrisonHost(q.host.value);
      if host.None? {
        return Some(NotFound);
      }
      var money := renter.money;
      if money < RENT_FEE {
        return Some(InsufficientFunds);
      }
      if host.value.prison.None? || !(host.value.prison.value.owned && host.value.prison.value.isPublic) {
        return Some(Private);
      }
      var prison := host.value.prison.value;
      var privateIndex := -1;
      if !q.forSelf {
        privateIndex := q.privateIndex;
        if privateIndex - 1 < 0 || privateIndex - 1 >= q.npcs {
          return Some(BadSlave);
        }
      }
      if prison.sectors.None? || q.sector >= |prison.sectors.value| {
        return Some(Full);
      }
      var sector := prison.sectors.value[q.sector];
      if !sector.unlocked || !sector.hasOverseer {
        return Some(Full);
      }
      var slaves := if sector.slaves.Some? then sector.slaves.value else [];
      var kept, lapsed := RetainActive(slaves, now);
      if |kept| >= Max(sector.base, 5) + Max(sector.extra, 0) {
        return Some(Full);
      }
      var role := if q.forSelf then Self else Slave;
      kept := kept + [Rental(Some(src), role, privateIndex, Some(now + RENT_DURATION_MS))];
      prison := prison.(sectors := Some(prison.sectors.value[q.sector := sector.(slaves := Some(kept))]),
                        vault := prison.vault + RENT_FEE);
      SavePrison(q.host.value, prison);
      SaveMoney(src, money - RENT_FEE);
      return None;
    }

    method HandlePrisonRelease(src: int, q: ReleaseRequest, now: int) returns (refusal: Option<Refusal>)
      requires Valid()
      modifies this, registry
      ensures Valid() && refusal == ReleaseRefusal(old(State()), src, q, now)
      ensures State() == Step(old(State()), Release(src, q, now))
    {
      hide FirstRental, RansomFee, Wanted, RemovePrisonRental, SectorAt, WithSector, FeeOf, UntilOf, Removed, Rentals;
      hide Released;
      if q.host.None? || q.sector < 0 {
        return Some(BadRequest);
      }
      if src !in online {
        return Some(Offline);
      }
      var requester := online[src];
      var host := LoadPrisonHost(q.host.value);
      if host.None? || host.value.prison.None? {
        return Some(NotFound);
      }
      var prison := host.value.prison.value;
      var target := if q.target.Some? then q.target.value else src;
      if q.kind == OwnerDismiss && src != q.host.value {
        return Some(NotOwner);
      }
      if q.kind != OwnerDismiss && q.kind != SelfRansom {
        return Some(BadRequest);
      }
      if q.kind == SelfRansom && (q.forSlave || target != src) {
        return Some(NotRenter);
      }
      RemovalIsOfTheWanted(store, src, q, now);
      var removed := RemovePrisonRental(prison, q.sector, target, if q.forSlave then Slave else Self, q.privateIndex);
      if removed.None? {
        return Some(NotFound);
      }
      var until := UntilOf(removed.value.0);
      var fee := if q.kind == SelfRansom then RansomFee(until, now) else 0;
      if fee > requester.money {
        return Some(InsufficientFunds);
      }
      FinishRelease(src, q, now, removed.value.1, requester.money - fee);
      return None;
    }

    /** Writes the prison and the requester's money, and ends the visit of the member released. */
    method FinishRelease(src: int, q: ReleaseRequest, now: int, prison: Prison, money: int)
      requires Valid() && ReleaseRefusal(State(), src, q, now).None?
      requires money == store[src].money - FeeOf(store, src, q, now)
      requires
        var p := Place(q.host.value, q.sector);
        var s := SectorAt(store, p).value;
        store[p.host := store[p.host].(prison := Some(prison))]
        == WithSector(store, p, s.(slaves := Some(Removed(Rentals(s), Wanted(store, src, q).value))))
      modifies this, registry
      ensures Valid() && State() == Released(old(State()), src, q, now)
    {
      hide Wanted, SectorAt, FeeOf, Removed, Rentals, WithSector;
      SavePrison(q.host.value, prison);
      SaveMoney(src, money);
      var changed := registry.RemovePrisonSectorMember(Place(q.host.value, q.sector), Target(src, q));
    }

    method HandleJoinSector(src: int, p: Place, now: int) returns (refusal: Option<Refusal>)
      requires Valid()
      modifies registry
      ensures Valid() && refusal == JoinRefusal(old(State()), src, p, now)
      ensures State() == Step(old(State()), JoinSector(src, p, now))
    {
      if src !in online {
        return Some(Offline);
      }
      var host := LoadPrisonHost(p.host);
      if host.None? || host.value.prison.None? || host.value.prison.value.sectors.None?
         || p.sector >= |host.value.prison.value.sectors.value|
      {
        return Some(NotFound);
      }
      var sector := host.value.prison.value.sectors.value[p.sector];
      if !sector.unlocked {
        return Some(NotFound);
      }
      var slaves := if sector.slaves.Some? then sector.slaves.value else [];
      if src != p.host && !exists r :: r in slaves && Admits(r, src, now) {
        return Some(NotRented);
      }
      var left := registry.JoinSector(p, src);
      return None;
    }

    method HandleLeaveSector(src: int, p: Place)
      requires Valid()
      modifies registry
      ensures Valid() && State() == Step(old(State()), LeaveSector(src, p))
    {
      if src in online {
        var changed := registry.RemovePrisonSectorMember(p, src);
      }
    }

    method LoadSession(m: int)
      requires Valid()
      modifies this
      ensures Valid() && State() == Step(old(State()), Login(m))
    {
      if m in store {
        online := online[m := store[m]];
      }
    }

    method EndSession(m: int)
      requires Valid()
      modifies this, registry
      ensures Valid() && State() == Step(old(State()), Logout(m))
    {
      if m in online {
        online := online - {m};
        var changed := registry.RemoveAccount(m);
      }
    }

    /** Removes the rentals of one sector that have run out, and sends their renters out of it. */
    method ExpireSector(p: Place, now: int)
      requires Valid()
      modifies this, registry
      ensures Valid() && online.Keys == old(online.Keys)
      ensures
        var s := SectorAt(old(store), p);
        if s.None? then store == old(store) && registry.at == old(registry.at)
        else store == WithSector(old(store), p, Pruned(s.value, now))
             && registry.at == SentOut(old(registry.at), p, Lapsed(Rentals(s.value), now))
    {
      hide Active, Lapsed;
      var host := LoadPrisonHost(p.host);
      if host.None? || host.value.prison.None? || host.value.prison.value.sectors.None?
         || p.sector >= |host.value.prison.value.sectors.value|
      {
        return;
      }
      var prison := host.value.prison.value;
      var sector := prison.sectors.value[p.sector];
      NobodyLapsed(store, registry.at, p, now);
      if sector.slaves.None? {
        return;
      }
      var kept, expired := RetainActive(sector.slaves.value, now);
      if expired == [] {
        return;
      }
      SavePrison(p.host, prison.(sectors := Some(prison.sectors.value[p.sector := sector.(slaves := Some(kept))])));
      SendOut(p, expired);
    }

    /** Each of the rentals that ended, if its renter was in the sector, ends the visit. */
    method SendOut(p: Place, expired: seq<Rental>)
      requires registry.Valid()
      modifies registry
      ensures registry.Valid() && registry.at == SentOut(old(registry.at), p, expired)
    {
      hide SentOut;
      SentOutNothing(registry.at, p);
      for i := 0 to |expired|
        invariant registry.Valid() && registry.at == SentOut(old(registry.at), p, expired[..i])
      {
        var rental := expired[i];
        SentOutOneMore(old(registry.at), p, expired[..i], rental);
        assert expired[..i + 1] == expired[..i] + [rental];
        if rental.renter.Some? && (rental.role == Self || rental.role == Slave) {
          var changed := registry.RemovePrisonSectorMember(p, rental.renter.value);
        }
      }
      assert expired[..|expired|] == expired;
    }

    /** The sweep over the sectors that have a session, in any order. */
    method ExpirePrisonSectorRentals(now: int)
      requires Valid()
      modifies this, registry
      ensures Valid() && State() == Step(old(State()), Expire(now))
    {
      hide Swept, Cleared, SentOut, WithSector, Pruned, Stands;
      ghost var l, at := store, registry.at;
      SessionPlaces(registry.sessions, registry.at);
      var sectors := set k | k in registry.sessions :: PlaceOf(registry.sessions[k]);
      var todo := sectors;
      SweptNothing(l, now);
      ClearedNothing(l, at, now);
      assert sectors - todo == {};
      while todo != {}
        invariant todo <= sectors && Valid() && online.Keys == old(online.Keys)
        invariant store == Swept(l, sectors - todo, now) && registry.at == Cleared(l, at, sectors - todo, now)
        decreases todo
      {
        var p :| p in todo;
        var done := sectors - todo;
        SweepOne(l, done, p, now);
        ClearedOneMore(l, at, done, p, now);
        ExpireSector(p, now);
        todo := todo - {p};
        assert sectors - todo == done + {p};
      }
      assert sectors - todo == Places(at);
      ClearedAll(l, at, now);
    }
  }

  lemma NobodyLapsed(l: Ledger, at: map<int, Place>, p: Place, now: int)
    ensures
      var s := SectorAt(l, p);
      s.Some? && (s.value.slaves.None? || Lapsed(s.value.slaves.value, now) == []) ==>
        WithSector(l, p, Pruned(s.value, now)) == l && SentOut(at, p, Lapsed(Rentals(s.value), now)) == at
  {
    var s := SectorAt(l, p);
    if s.Some? && (s.value.slaves.None? || Lapsed(s.value.slaves.value, now) == []) {
      if s.value.slaves.Some? {
        LapsedOnly(s.value.slaves.value, now);
      }
      var sectors := l[p.host].prison.value.sectors.value;
      assert sectors[p.sector := s.value] == sectors;
      SentOutNothing(at, p);
    }
  }

  lemma SentOutNothing(at: map<int, Place>, p: Place)
    ensures SentOut(at, p, []) == at
  {
  }

  lemma ClearedNothing(l: Ledger, at: map<int, Place>, now: int)
    ensures Cleared(l, at, {}, now) == at
  {
  }

  lemma ClearedAll(l: Ledger, at: map<int, Place>, now: int)
    ensures Cleared(l, at, Places(at), now) == map m | m in at && !Overdue(l, at[m], m, now) :: at[m]
  {
    hide Overdue;
  }
}
