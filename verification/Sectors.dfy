/** The live sessions of prison sectors: `prison_sector_sessions` of `src/state/world.rs`, kept under
    printed "host:sector" keys, and what work-room, release and session code do to them. */
module Sectors {
  import opened Numbers

  datatype Place = Place(host: int, sector: nat)

  datatype Session = Session(host: int, sector: nat, members: set<int>)

  function Key(p: Place): string {
    Decimal(p.host) + ":" + Decimal(p.sector)
  }

  lemma KeyInjective(p: Place, q: Place)
    requires Key(p) == Key(q)
    ensures p == q
  {
    DecimalHasNoColon(p.host);
    DecimalHasNoColon(q.host);
    ColonSplits(Decimal(p.host), Decimal(p.sector), Decimal(q.host), Decimal(q.sector));
    DecimalInjective(p.host, q.host);
    DecimalInjective(p.sector, q.sector);
  }

  function PlaceOf(s: Session): Place {
    Place(s.host, s.sector)
  }

  /** The registry stands for `at`: who is in which sector. Every session is there for its members, under
      the key its own place prints to. */
  ghost predicate Stands(sessions: map<string, Session>, at: map<int, Place>) {
    && (forall k :: k in sessions ==> k == Key(PlaceOf(sessions[k])) && sessions[k].members != {})
    && (forall k, m :: k in sessions && m in sessions[k].members ==> m in at && at[m] == PlaceOf(sessions[k]))
    && (forall m :: m in at ==> Key(at[m]) in sessions && m in sessions[Key(at[m])].members)
  }

  /** The sessions somebody is in. */
  function Kept(sessions: map<string, Session>): map<string, Session> {
    map k | k in sessions && sessions[k].members != {} :: sessions[k]
  }

  function Without(s: Session, m: int): Session {
    s.(members := s.members - {m})
  }

  /** The sessions after `m` has left all of them, without those now empty. */
  function LeftAll(sessions: map<string, Session>, m: int): map<string, Session> {
    map k | k in sessions && Without(sessions[k], m).members != {} :: Without(sessions[k], m)
  }

  lemma LeftAllStands(sessions: map<string, Session>, at: map<int, Place>, m: int)
    requires Stands(sessions, at)
    ensures Stands(LeftAll(sessions, m), at - {m})
  {
    hide Key;
    var s' := LeftAll(sessions, m);
    forall n | n in at - {m} ensures Key(at[n]) in s' && n in s'[Key(at[n])].members {
      assert n in sessions[Key(at[n])].members - {m};
    }
  }

  /** A member's only session is the one its place prints to. */
  lemma LeftOne(sessions: map<string, Session>, at: map<int, Place>, k: string, m: int)
    requires Stands(sessions, at) && k in sessions
    ensures m in sessions[k].members <==> m in at && Key(at[m]) == k
    ensures m in sessions[k].members ==> Kept(sessions[k := Without(sessions[k], m)]) == LeftAll(sessions, m)
    ensures m !in sessions[k].members ==> Kept(sessions[k := Without(sessions[k], m)]) == sessions
  {
    hide Key;
    if m in sessions[k].members {
      forall j | j in sessions && j != k ensures Without(sessions[j], m) == sessions[j] {
        assert j == Key(PlaceOf(sessions[j])) && k == Key(PlaceOf(sessions[k]));
        assert at[m] == PlaceOf(sessions[k]) && PlaceOf(sessions[j]) != PlaceOf(sessions[k]);
      }
    } else {
      assert Without(sessions[k], m) == sessions[k];
    }
  }

  /** So each member is in one session at most. */
  lemma OneSessionEach(sessions: map<string, Session>, at: map<int, Place>, j: string, k: string, m: int)
    requires Stands(sessions, at)
    requires j in sessions && k in sessions && m in sessions[j].members && m in sessions[k].members
    ensures j == k
  {
    LeftOne(sessions, at, j, m);
    LeftOne(sessions, at, k, m);
  }

  lemma JoinStands(sessions: map<string, Session>, at: map<int, Place>, p: Place, session: Session, m: int)
    requires Stands(sessions, at) && m !in at && PlaceOf(session) == p
    requires session.members == if Key(p) in sessions then sessions[Key(p)].members else {}
    ensures Stands(sessions[Key(p) := session.(members := session.members + {m})], at[m := p])
  {
    hide Key;
    var key, s := Key(p), session.(members := session.members + {m});
    var s', at' := sessions[key := s], at[m := p];
    forall n | n in at' ensures Key(at'[n]) in s' && n in s'[Key(at'[n])].members {
      assert n != m ==> Key(at[n]) in sessions && n in sessions[Key(at[n])].members;
    }
    forall n | n in session.members ensures n in at && at[n] == p {
      OnlyAtItsPlace(sessions, at, p, n);
    }
  }

  lemma OnlyAtItsPlace(sessions: map<string, Session>, at: map<int, Place>, p: Place, n: int)
    requires Stands(sessions, at) && Key(p) in sessions && n in sessions[Key(p)].members
    ensures n in at && at[n] == p && PlaceOf(sessions[Key(p)]) == p
  {
    KeyInjective(p, PlaceOf(sessions[Key(p)]));
  }

  lemma SomebodyIn(ks: set<int>)
    requires ks != {}
    ensures exists m :: m in ks
  {
    if forall m :: m !in ks {
      NobodyIn(ks);
      assert false;
    }
  }

  lemma NobodyIn(ks: set<int>)
    requires forall m :: m !in ks
    ensures ks == {}
  {
    assert forall m :: m in ks <==> m in {};
  }

  /** The sectors somebody is in. */
  function Places(at: map<int, Place>): set<Place> {
    set m | m in at :: at[m]
  }

  /** The sectors with a session are the ones somebody is in. */
  lemma SessionPlaces(sessions: map<string, Session>, at: map<int, Place>)
    requires Stands(sessions, at)
    ensures (set k | k in sessions :: PlaceOf(sessions[k])) == Places(at)
  {
    hide Key;
    forall k | k in sessions ensures PlaceOf(sessions[k]) in Places(at) {
      SomebodyIn(sessions[k].members);
      var m :| m in sessions[k].members;
      assert at[m] == PlaceOf(sessions[k]);
    }
    forall p | p in Places(at) ensures exists k :: k in sessions && PlaceOf(sessions[k]) == p {
      var m :| m in at && at[m] == p;
      assert m in sessions[Key(at[m])].members;
    }
  }

  class SectorRegistry {
    var sessions: map<string, Session>
    ghost var at: map<int, Place>

    ghost predicate Valid()
      reads this
    {
      Stands(sessions, at)
    }

    constructor ()
      ensures Valid() && at == map[]
    {
      sessions, at := map[], map[];
    }

    /** Takes `m` out of every session and drops the empty ones; the places left are returned. */
    method RemoveEverywhere(m: int) returns (changed: seq<Place>)
      requires Valid()
      modifies this
      ensures Valid() && at == old(at) - {m}
      ensures changed == if m in old(at) then [old(at)[m]] else []
    {
      hide Key;
      changed := [];
      ghost var before := sessions;
      var keys := sessions.Keys;
      while keys != {}
        invariant keys <= before.Keys && sessions.Keys == before.Keys
        invariant forall k :: k in before ==> sessions[k] == if k in keys then before[k] else Without(before[k], m)
        invariant changed == if m in at && Key(at[m]) !in keys then [at[m]] else []
        invariant at == old(at) && Stands(before, at)
        decreases keys
      {
        var k :| k in keys;
        var session := sessions[k];
        LeftOne(before, at, k, m);
        if m in session.members {
          sessions := sessions[k := Without(session, m)];
          changed := changed + [Place(session.host, session.sector)];
        } else {
          assert Without(session, m) == session;
        }
        keys := keys - {k};
      }
      LeftAllStands(before, at, m);
      sessions := Kept(sessions);
      assert sessions == LeftAll(before, m);
      at := at - {m};
    }

    /** Ends the session of `m` in the sector at `p`, if `m` is there. */
    method RemovePrisonSectorMember(p: Place, m: int) returns (changed: bool)
      requires Valid()
      modifies this
      ensures Valid() && changed == (m in old(at) && old(at)[m] == p)
      ensures at == if changed then old(at) - {m} else old(at)
    {
      hide Key, LeftAll;
      var key := Key(p);
      changed := false;
      if key in sessions {
        LeftOne(sessions, at, key, m);
        LeftAllStands(sessions, at, m);
        var session := sessions[key];
        changed := m in session.members;
        sessions := sessions[key := Without(session, m)];
      } else {
        assert Kept(sessions) == sessions;
      }
      sessions := Kept(sessions);
      if m in at && Key(at[m]) == key {
        KeyInjective(at[m], p);
      }
      if changed {
        at := at - {m};
      }
    }

    lemma KeyIsPlace(p: Place)
      requires Valid()
      ensures Key(p) in sessions ==> PlaceOf(sessions[Key(p)]) == p
    {
      if Key(p) in sessions {
        KeyInjective(p, PlaceOf(sessions[Key(p)]));
      }
    }

    /** One member renders one sector at a time: joining a sector leaves the one before. */
    method JoinSector(p: Place, m: int) returns (left: seq<Place>)
      requires Valid()
      modifies this
      ensures Valid() && at == old(at)[m := p]
      ensures left == if m in old(at) then [old(at)[m]] else []
    {
      hide Key, Stands;
      left := RemoveEverywhere(m);
      var key := Key(p);
      var session := if key in sessions then sessions[key] else Session(p.host, p.sector, {});
      KeyIsPlace(p);
      JoinStands(sessions, at, p, session, m);
      sessions := sessions[key := session.(members := session.members + {m})];
      at := at[m := p];
      assert at == old(at)[m := p];
    }

    /** A departing account leaves at most one sector, the one it was in. */
    method RemoveAccount(m: int) returns (changed: seq<Place>)
      requires Valid()
      modifies this
      ensures Valid() && at == old(at) - {m}
      ensures changed == if m in old(at) then [old(at)[m]] else []
    {
      changed := RemoveEverywhere(m);
    }
  }
}
