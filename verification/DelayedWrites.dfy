/** The write-back cache for `Appearance`, `Skill` and `Game` (`src/account/mod.rs`,
    `src/handlers.rs`, `src/chat/mod.rs`). A session may hold a newer value of each than the store;
    the store is proved to be, at every moment, what immediate writing would have made it, once the
    values still held are laid over it. */
module DelayedWrites {
  import opened Options
  import opened JsonPaths
  import opened AccountRows
  import opened UpdateKeys

  /** The delayed part of an online account. */
  datatype Session = Session(name: string, appearance: Option<Json>, skill: Option<Json>, game: Option<Json>)

  datatype Cache = Cache(docs: map<string, Fields>, sessions: map<string, Session>)

  /** What a session holds back, as fields of a document. */
  function Held(s: Session): (held: Fields)
    ensures held.Keys <= DELAYED
  {
    Put(Put(Put(map[], "Appearance", s.appearance), "Skill", s.skill), "Game", s.game)
  }

  function Empty(name: string): (s: Session)
    ensures Held(s) == map[]
  {
    Session(name, None, None, None)
  }

  // ----- Laying held values over a document -----

  /** No dotted key reaches below a held value that the update does not also replace. */
  ghost predicate NoClash(held: set<string>, keys: set<string>) {
    forall r :: r in held && r !in keys ==> !DottedInto(keys, r)
  }

  lemma DelayedTarget(r: string)
    requires r in DELAYED
    ensures Target(r) == [r]
  {
    assert |r| == 10 || |r| == 5 || |r| == 4;
    assert forall k :: k in SKIPPED ==> |k| == 3 || |k| == 7 || |k| == 11;
    assert '.' !in r;
  }

  /** Writes elsewhere do not see a difference confined to some fields. */
  lemma {:induction false} MergeOutside(a: Fields, b: Fields, entries: seq<Entry>, k: string)
    requires (k in a <==> k in b) && (k in a ==> a[k] == b[k])
    ensures k in Merge(a, entries) <==> k in Merge(b, entries)
    ensures k in Merge(a, entries) ==> Merge(a, entries)[k] == Merge(b, entries)[k]
    decreases |entries|
  {
    if entries != [] {
      var n := |entries| - 1;
      MergeOutside(a, b, entries[..n], k);
      WriteAgrees(Merge(a, entries[..n]), Merge(b, entries[..n]), Target(entries[n].0), entries[n].1, k);
    }
  }

  lemma WriteAgrees(a: Fields, b: Fields, path: Path, v: Json, k: string)
    requires (k in a <==> k in b) && (k in a ==> a[k] == b[k])
    ensures k in a ==> k in Write(a, path, v)
    ensures k in Write(a, path, v) <==> k in Write(b, path, v)
    ensures k in Write(a, path, v) ==> Write(a, path, v)[k] == Write(b, path, v)[k]
  {
    if path != [] && path[0] == k {
      assert Child(a, k) == Child(b, k);
    }
  }

  /** A field the update writes whole ends up the same whatever it held before. */
  lemma {:induction false} MergeForgets(a: Fields, b: Fields, entries: seq<Entry>, i: nat, k: string)
    requires i < |entries| && Target(entries[i].0) == [k]
    ensures k in Merge(a, entries) && k in Merge(b, entries)
    ensures Merge(a, entries)[k] == Merge(b, entries)[k]
    decreases |entries|
  {
    hide Write, Target;
    var n := |entries| - 1;
    if i < n {
      assert entries[..n][i] == entries[i];
      MergeForgets(a, b, entries[..n], i, k);
      WriteAgrees(Merge(a, entries[..n]), Merge(b, entries[..n]), Target(entries[n].0), entries[n].1, k);
    } else {
      ShortWrites(Merge(a, entries[..n]), k, entries[n].1);
      ShortWrites(Merge(b, entries[..n]), k, entries[n].1);
    }
  }

  /** Updating a document under held values is updating the document and dropping the held values
      the update replaced. */
  lemma UpdateUnderHeld(doc: Fields, held: Fields, entries: seq<Entry>)
    requires held.Keys <= DELAYED && NoClash(held.Keys, Keys(entries))
    ensures Updated(doc + held, entries) == Updated(doc, entries) + (held - Keys(entries))
  {
    var l, r := Updated(doc + held, entries), Updated(doc, entries) + (held - Keys(entries));
    forall k ensures (k in l <==> k in r) && (k in l ==> l[k] == r[k]) {
      UpdateUnderHeldAt(doc, held, entries, k);
    }
  }

  lemma KeptUnderHeld(doc: Fields, held: Fields, c: Column)
    requires held.Keys <= DELAYED
    ensures TypedAt(doc + held, c) == TypedAt(doc, c)
  {
  }

  lemma UpdateUnderHeldAt(doc: Fields, held: Fields, entries: seq<Entry>, k: string)
    requires held.Keys <= DELAYED && NoClash(held.Keys, Keys(entries))
    ensures
      var l, r := Updated(doc + held, entries), Updated(doc, entries) + (held - Keys(entries));
      (k in l <==> k in r) && (k in l ==> l[k] == r[k])
  {
    if IsProtected(k) {
      KeptUnderHeld(doc, held, ColumnOf(k).value);
      ProtectedNotHeld(k);
      MergeOutside(doc, doc + held, entries, k);
    } else if k !in held {
      MergeOutside(doc, doc + held, entries, k);
    } else {
      DelayedTarget(k);
      if k in Keys(entries) {
        var i :| 0 <= i < |entries| && entries[i].0 == k;
        MergeForgets(doc, doc + held, entries, i, k);
      } else {
        forall e | e in entries ensures Target(e.0) == [] || Target(e.0)[0] != k {
          UntouchedBy(entries, e, k);
        }
        MergeAside(doc + held, entries, k);
      }
    }
  }

  lemma ProtectedNotHeld(k: string)
    requires IsProtected(k)
    ensures k !in DELAYED
  {
  }

  lemma UntouchedBy(entries: seq<Entry>, e: Entry, k: string)
    requires e in entries && k !in Keys(entries) && !DottedInto(Keys(entries), k)
    ensures Target(e.0) == [] || Target(e.0)[0] != k
  {
    assert e.0 in Keys(entries);
  }

  // ----- The cache as a machine -----

  /** The entries whose keys are not in `dropped`. */
  function Drop(entries: seq<Entry>, dropped: set<string>): (r: seq<Entry>)
    ensures Keys(r) == Keys(entries) - dropped
    ensures DistinctKeys(entries) ==> DistinctKeys(r)
    ensures forall e :: e in r <==> e in entries && e.0 !in dropped
  {
    if entries == [] then []
    else
      var rest := Drop(entries[1..], dropped);
      var r := (if entries[0].0 in dropped then [] else [entries[0]]) + rest;
      assert entries == [entries[0]] + entries[1..];
      r
  }

  function ValueOf(entries: seq<Entry>, key: string): (v: Option<Json>)
    ensures v.Some? <==> key in Keys(entries)
    ensures v.Some? ==> (key, v.value) in entries
  {
    if entries == [] then None
    else
      assert entries == [entries[0]] + entries[1..];
      if entries[0].0 == key then Some(entries[0].1) else ValueOf(entries[1..], key)
  }

  /** The NPC that an update's `Lover` names. */
  function LoverOf(data: seq<Entry>): Option<string> {
    var v := ValueOf(data, LOVER);
    if v.Some? && v.value.Str? then Some(v.value.s) else None
  }

  /** The entries an update is judged by: without immutable keys, and without a `Lover` that is a string. */
  function CountedEntries(data: seq<Entry>): seq<Entry> {
    var obj := Drop(data, Immutable());
    if LoverOf(obj).Some? then Drop(obj, {LOVER}) else obj
  }

  /** The cleaned list of lovers that goes with an update, when its `Lover` became one. */
  function TakenNpc(data: seq<Entry>, npc: Option<Json>): Option<Json> {
    if LoverOf(Drop(data, Immutable())).Some? then npc else None
  }

  /** What a client's update asks to store. */
  function Requested(data: seq<Entry>, npc: Option<Json>): seq<Entry> {
    Drop(CountedEntries(data), {"MapData", LOVER}) + One("Lovership", TakenNpc(data, npc))
  }

  /** The session after an update: a lone delayed field replaces the held value, and a larger update
      releases the held values it overwrites. */
  function SessionAfter(s: Session, obj: seq<Entry>): Session {
    var keys := Keys(obj);
    if |obj| == 1 then
      if "Appearance" in keys then s.(appearance := ValueOf(obj, "Appearance"))
      else if "Skill" in keys then s.(skill := ValueOf(obj, "Skill"))
      else if "Game" in keys then s.(game := ValueOf(obj, "Game"))
      else s
    else s.(
      appearance := if "Appearance" in keys then None else s.appearance,
      skill := if "Skill" in keys then None else s.skill,
      game := if "Game" in keys then None else s.game)
  }

  /** A lone delayed field is not written to the store now. */
  predicate Delays(obj: seq<Entry>) {
    |obj| == 1 && obj[0].0 in DELAYED
  }

  /** Every session belongs to a stored account, no two to the same one, and documents are as read back. */
  ghost predicate ValidCache(c: Cache) {
    && (forall sid :: sid in c.sessions ==> c.sessions[sid].name in c.docs)
    && (forall a, b :: a in c.sessions && b in c.sessions && c.sessions[a].name == c.sessions[b].name ==> a == b)
    && forall n :: n in c.docs ==> Tidy(c.docs[n])
  }

  ghost predicate Online(c: Cache, name: string) {
    exists sid :: sid in c.sessions && c.sessions[sid].name == name
  }

  ghost function HeldFor(c: Cache, name: string): (held: Fields)
    ensures held.Keys <= DELAYED
  {
    if Online(c, name) then
      var sid :| sid in c.sessions && c.sessions[sid].name == name;
      Held(c.sessions[sid])
    else map[]
  }

  /** The store overlaid with everything held back. */
  ghost function Through(c: Cache): map<string, Fields> {
    map n | n in c.docs :: c.docs[n] + HeldFor(c, n)
  }

  function One(key: string, v: Option<Json>): seq<Entry> {
    if v.Some? then [(key, v.value)] else []
  }

  function HeldEntries(s: Session): seq<Entry> {
    One("Appearance", s.appearance) + One("Skill", s.skill) + One("Game", s.game)
  }

  function Written(doc: Fields, entries: seq<Entry>): Fields {
    if entries == [] then doc else Normal(Updated(doc, entries))
  }

  function AfterUpdate(c: Cache, sid: string, data: seq<Entry>, npc: Option<Json>): Cache {
    if sid !in c.sessions || c.sessions[sid].name !in c.docs then c
    else
      var s, obj := c.sessions[sid], CountedEntries(data);
      Cache(if Delays(obj) then c.docs else c.docs[s.name := Written(c.docs[s.name], Requested(data, npc))],
            c.sessions[sid := SessionAfter(s, obj)])
  }

  function AfterCharacterUpdate(c: Cache, sid: string, appearance: Json): Cache {
    if sid !in c.sessions then c
    else c.(sessions := c.sessions[sid := c.sessions[sid].(appearance := Some(appearance))])
  }

  ghost function AfterFlush(c: Cache): Cache {
    Cache(Through(c), map sid | sid in c.sessions :: Empty(c.sessions[sid].name))
  }

  function AfterDisconnect(c: Cache, sid: string): Cache {
    if sid !in c.sessions || c.sessions[sid].name !in c.docs then c
    else
      var s := c.sessions[sid];
      Cache(c.docs[s.name := c.docs[s.name] + Held(s)], c.sessions - {sid})
  }

  /** A second login drops the first session together with what it held. */
  function AfterKick(c: Cache, sid: string): Cache {
    c.(sessions := c.sessions - {sid})
  }

  function AfterLogin(c: Cache, sid: string, name: string): Cache {
    c.(sessions := c.sessions[sid := Empty(name)])
  }

  // ----- Each step is an immediate write -----

  lemma HeldForSession(c: Cache, sid: string)
    requires ValidCache(c) && sid in c.sessions
    ensures HeldFor(c, c.sessions[sid].name) == Held(c.sessions[sid])
  {
    hide Tidy, Held;
  }

  lemma NothingHeld(c: Cache, n: string)
    requires !Online(c, n)
    ensures HeldFor(c, n) == map[]
  {
    hide Held;
  }

  lemma ThroughAt(c: Cache, n: string)
    requires n in c.docs
    ensures n in Through(c) && Through(c)[n] == c.docs[n] + HeldFor(c, n)
  {
    hide HeldFor;
  }

  lemma WriteSame<K, V>(m: map<K, V>, k: K)
    requires k in m
    ensures m[k := m[k]] == m
  {
  }

  /** Changing one session changes what is held for its account only. */
  lemma HeldForOthers(c: Cache, c': Cache, sid: string, n: string)
    requires ValidCache(c) && ValidCache(c') && sid in c.sessions && n != c.sessions[sid].name
    requires c'.sessions - {sid} == c.sessions - {sid}
    requires sid in c'.sessions ==> c'.sessions[sid].name == c.sessions[sid].name
    ensures HeldFor(c', n) == HeldFor(c, n)
  {
    hide Tidy, Held;
    OtherSessions(c.sessions, c'.sessions, sid);
    if Online(c, n) {
      var o :| o in c.sessions && c.sessions[o].name == n;
      HeldForSession(c, o);
      HeldForSession(c', o);
    }
  }

  lemma OtherSessions(a: map<string, Session>, b: map<string, Session>, sid: string)
    requires a - {sid} == b - {sid}
    ensures forall o :: o != sid ==> (o in a <==> o in b) && (o in a ==> a[o] == b[o])
  {
    forall o | o != sid ensures (o in a <==> o in b) && (o in a ==> a[o] == b[o]) {
      assert o in a - {sid} <==> o in b - {sid};
    }
  }

  /** Through differs at most at one account when one session and its document change. */
  lemma ThroughOne(c: Cache, c': Cache, sid: string)
    requires ValidCache(c) && ValidCache(c') && sid in c.sessions
    requires c'.sessions - {sid} == c.sessions - {sid}
    requires sid in c'.sessions ==> c'.sessions[sid].name == c.sessions[sid].name
    requires c'.docs.Keys == c.docs.Keys
    requires forall n :: n in c.docs && n != c.sessions[sid].name ==> c'.docs[n] == c.docs[n]
    ensures
      var name := c.sessions[sid].name;
      Through(c') == Through(c)[name := c'.docs[name] + HeldFor(c', name)]
  {
    hide Tidy, Held, HeldFor, Through;
    forall n | n in c.docs && n != c.sessions[sid].name
      ensures c'.docs[n] + HeldFor(c', n) == c.docs[n] + HeldFor(c, n)
    {
      HeldForOthers(c, c', sid, n);
    }
    ThroughUpdate(c, c', c.sessions[sid].name);
  }

  lemma ThroughUpdate(c: Cache, c': Cache, name: string)
    requires c'.docs.Keys == c.docs.Keys && name in c.docs
    requires forall n :: n in c.docs && n != name ==> c'.docs[n] + HeldFor(c', n) == c.docs[n] + HeldFor(c, n)
    ensures Through(c') == Through(c)[name := c'.docs[name] + HeldFor(c', name)]
  {
  }

  /** Writing delayed fields alone lays them over the document. */
  lemma WriteHeld(doc: Fields, s: Session)
    requires Tidy(doc)
    ensures Written(doc, HeldEntries(s)) == doc + Held(s) && Tidy(doc + Held(s))
  {
    hide Tidy, Held, HeldEntries, Updated, Normal, Merge;
    HeldTidy(doc, Held(s));
    MergeHeld(doc, s);
    HeldEntriesDelayed(s);
    UpdatedIsMerge(doc, HeldEntries(s));
    NormalOfTidy(doc + Held(s));
    if HeldEntries(s) == [] {
      NothingMerged(doc);
    }
  }

  lemma NothingMerged(doc: Fields)
    ensures Merge(doc, []) == doc
  {
  }

  lemma NormalOfTidy(doc: Fields)
    requires Tidy(doc)
    ensures Normal(doc) == doc
  {
  }

  lemma HeldEntriesDelayed(s: Session)
    ensures forall e :: e in HeldEntries(s) ==> e.0 in DELAYED
  {
  }

  lemma MergeHeld(doc: Fields, s: Session)
    ensures Merge(doc, HeldEntries(s)) == doc + Held(s)
  {
    var x, y, z := One("Appearance", s.appearance), One("Skill", s.skill), One("Game", s.game);
    var a := Put(map[], "Appearance", s.appearance);
    var b := Put(a, "Skill", s.skill);
    assert doc + map[] == doc;
    MergeConcat(doc, x + y, z);
    MergeConcat(doc, x, y);
    MergeOne(doc, map[], "Appearance", s.appearance);
    MergeOne(doc, a, "Skill", s.skill);
    MergeOne(doc, b, "Game", s.game);
  }

  lemma MergeOne(doc: Fields, held: Fields, key: string, v: Option<Json>)
    requires key in DELAYED
    ensures Merge(doc + held, One(key, v)) == doc + Put(held, key, v)
  {
    DelayedTarget(key);
    if v.Some? {
      assert [(key, v.value)][..0] == [];
      assert doc + held[key := v.value] == (doc + held)[key := v.value];
    }
  }

  /** A set of delayed fields cannot reach a protected one. */
  lemma UpdatedIsMerge(doc: Fields, entries: seq<Entry>)
    requires Tidy(doc) && forall e :: e in entries ==> e.0 in DELAYED
    ensures Updated(doc, entries) == Merge(doc, entries)
  {
    hide Tidy, Merge;
    TidyIff(doc);
    forall k | IsProtected(k)
      ensures Kept(doc, entries, k) ==>
        k in Merge(doc, entries) && TypedAt(doc, ColumnOf(k).value).value == Merge(doc, entries)[k]
    {
      ProtectedNotHeld(k);
      forall e | e in entries ensures Target(e.0) == [] || Target(e.0)[0] != k {
        DelayedTarget(e.0);
      }
      MergeAside(doc, entries, k);
    }
  }

  /** Fields that are not protected are read back as they are. */
  lemma NormalUnderHeld(doc: Fields, held: Fields)
    requires held.Keys <= DELAYED
    ensures Normal(doc + held) == Normal(doc) + held
  {
    hide Normal, TypedAt, KeyOf;
    var l, r := Normal(doc + held), Normal(doc) + held;
    forall k ensures (k in l <==> k in r) && (k in l ==> l[k] == r[k]) {
      if IsProtected(k) {
        ProtectedNotHeld(k);
        KeptUnderHeld(doc, held, ColumnOf(k).value);
        NormalColumn(doc, ColumnOf(k).value);
        NormalColumn(doc + held, ColumnOf(k).value);
      } else {
        NormalOther(doc, k);
        NormalOther(doc + held, k);
      }
    }
  }

  lemma HeldTidy(doc: Fields, held: Fields)
    requires Tidy(doc) && held.Keys <= DELAYED
    ensures Tidy(doc + held)
  {
    NormalUnderHeld(doc, held);
  }

  lemma DropNothing(entries: seq<Entry>, dropped: set<string>)
    requires Keys(entries) !! dropped
    ensures Drop(entries, dropped) == entries
  {
    if entries != [] {
      assert entries == [entries[0]] + entries[1..];
      assert entries[0] in entries && entries[0].0 in Keys(entries);
      assert Keys(entries[1..]) <= Keys(entries);
      DropNothing(entries[1..], dropped);
    }
  }

  lemma HeldAfter(s: Session, obj: seq<Entry>)
    requires DistinctKeys(obj)
    ensures Held(SessionAfter(s, obj)) ==
            if Delays(obj) then Held(s)[obj[0].0 := obj[0].1] else Held(s) - Keys(obj)
  {
    if |obj| == 1 {
      assert obj == [obj[0]] && Keys(obj) == {obj[0].0};
      assert ValueOf(obj, obj[0].0) == Some(obj[0].1);
    }
  }

  /** A lone delayed field, held back, shows through as if written. */
  lemma DelayIsWrite(doc: Fields, held: Fields, obj: seq<Entry>)
    requires Tidy(doc) && held.Keys <= DELAYED && Delays(obj)
    ensures Written(doc + held, obj) == doc + held[obj[0].0 := obj[0].1]
  {
    hide Tidy, Updated, Normal, Merge;
    assert obj == [obj[0]] == One(obj[0].0, Some(obj[0].1));
    HeldTidy(doc, held);
    HeldTidy(doc, held[obj[0].0 := obj[0].1]);
    UpdatedIsMerge(doc + held, obj);
    MergeOne(doc, held, obj[0].0, Some(obj[0].1));
    NormalOfTidy(doc + held[obj[0].0 := obj[0].1]);
  }

  /** A written update shows through the values still held. */
  lemma WriteShowsThrough(doc: Fields, held: Fields, obj: seq<Entry>, entries: seq<Entry>)
    requires held.Keys <= DELAYED && NoClash(held.Keys, Keys(entries))
    requires Keys(entries) * DELAYED == Keys(obj) * DELAYED
    ensures Written(doc + held, entries) == Written(doc, entries) + (held - Keys(obj))
  {
    hide Updated, Normal;
    assert held - Keys(obj) == held - Keys(entries) by {
      assert forall k :: k in held ==> (k in Keys(obj) * DELAYED <==> k in Keys(entries) * DELAYED);
    }
    WrittenUnderHeld(doc, held, entries);
  }

  /** Writing under held values is writing the document and dropping the held values the write replaced. */
  lemma WrittenUnderHeld(doc: Fields, held: Fields, entries: seq<Entry>)
    requires held.Keys <= DELAYED && NoClash(held.Keys, Keys(entries))
    ensures Written(doc + held, entries) == Written(doc, entries) + (held - Keys(entries))
  {
    hide Updated, Normal;
    if entries == [] {
      assert held - {} == held;
    } else {
      UpdateUnderHeld(doc, held, entries);
      NormalUnderHeld(Updated(doc, entries), held - Keys(entries));
    }
  }

  /** What an update needs for the cache to be invisible: no dotted key below a value still held, and no NPC
      lover beside a lone delayed key. */
  ghost predicate Unclashing(c: Cache, sid: string, data: seq<Entry>, npc: Option<Json>) {
    sid in c.sessions && c.sessions[sid].name in c.docs ==>
      && DistinctKeys(data)
      && NoClash(Held(c.sessions[sid]).Keys, Keys(Requested(data, npc)))
      && (Delays(CountedEntries(data)) ==> TakenNpc(data, npc).None?)
  }

  lemma WrittenTidy(doc: Fields, entries: seq<Entry>)
    requires Tidy(doc)
    ensures Tidy(Written(doc, entries))
  {
    hide Tidy, Updated;
    NormalIsTidy(Updated(doc, entries));
  }

  /** Replacing one session's held values and its document shows in that account only. */
  lemma ReplaceOne(c: Cache, sid: string, doc: Fields, s: Session)
    requires ValidCache(c) && sid in c.sessions && s.name == c.sessions[sid].name && Tidy(doc)
    ensures
      var c' := Cache(c.docs[s.name := doc], c.sessions[sid := s]);
      ValidCache(c') && Through(c') == Through(c)[s.name := doc + Held(s)]
  {
    hide Tidy, Held, HeldFor, Through;
    var c' := Cache(c.docs[s.name := doc], c.sessions[sid := s]);
    assert c'.sessions - {sid} == c.sessions - {sid};
    assert forall o :: o in c'.sessions ==> o in c.sessions && c'.sessions[o].name == c.sessions[o].name;
    assert ValidCache(c');
    ThroughOne(c, c', sid);
    HeldForSession(c', sid);
  }

  /** The document and the session after an update, laid together, are the update made at once. */
  lemma UpdateOverlay(doc: Fields, s: Session, data: seq<Entry>, npc: Option<Json>)
    requires Tidy(doc) && DistinctKeys(data)
    requires NoClash(Held(s).Keys, Keys(Requested(data, npc)))
    requires Delays(CountedEntries(data)) ==> TakenNpc(data, npc).None?
    ensures
      var obj, entries := CountedEntries(data), Requested(data, npc);
      (if Delays(obj) then doc else Written(doc, entries)) + Held(SessionAfter(s, obj)) ==
      Written(doc + Held(s), entries)
  {
    hide *;
    var obj, entries := CountedEntries(data), Requested(data, npc);
    CountedDistinct(data);
    HeldAfter(s, obj);
    RequestedOf(data, npc);
    if Delays(obj) {
      LoneRequest(data, npc);
      DelayIsWrite(doc, Held(s), obj);
    } else {
      WriteShowsThrough(doc, Held(s), obj, entries);
    }
  }

  lemma CountedDistinct(data: seq<Entry>)
    requires DistinctKeys(data)
    ensures DistinctKeys(CountedEntries(data))
    ensures Keys(CountedEntries(data)) == Counted(Keys(data), LoverOf(Drop(data, Immutable())).Some?)
  {
    hide Immutable;
  }

  /** The update is delayed exactly when the keys it is judged by are one delayed key. */
  lemma DelaysIffOnlyDelayed(data: seq<Entry>)
    requires DistinctKeys(data)
    ensures Delays(CountedEntries(data)) <==>
      OnlyDelayed(Counted(Keys(data), LoverOf(Drop(data, Immutable())).Some?))
  {
    hide Immutable, CountedEntries, Counted;
    CountedDistinct(data);
    var obj := CountedEntries(data);
    AsManyKeys(obj);
    if |obj| == 1 {
      assert obj == [obj[0]] && Keys(obj) == {obj[0].0};
    }
  }

  lemma {:induction false} AsManyKeys(entries: seq<Entry>)
    requires DistinctKeys(entries)
    ensures |Keys(entries)| == |entries|
  {
    if entries != [] {
      var front, last := entries[..|entries| - 1], entries[|entries| - 1];
      assert entries == front + [last];
      AsManyKeys(front);
      KeysOfSnoc(front, last.0, last.1);
      assert last.0 !in Keys(front);
    }
  }

  lemma RequestedOf(data: seq<Entry>, npc: Option<Json>)
    ensures Keys(Requested(data, npc)) * DELAYED == Keys(CountedEntries(data)) * DELAYED
  {
    hide Immutable, CountedEntries, Keys, TakenNpc, One;
    var obj := Drop(CountedEntries(data), {"MapData", LOVER});
    OthersNotDelayed();
    KeysOfBoth(obj, One("Lovership", TakenNpc(data, npc)));
    KeysOfOne("Lovership", TakenNpc(data, npc));
  }

  lemma KeysOfOne(key: string, v: Option<Json>)
    ensures Keys(One(key, v)) <= {key}
  {
  }

  lemma KeysOfBoth(a: seq<Entry>, b: seq<Entry>)
    ensures Keys(a + b) == Keys(a) + Keys(b)
  {
  }

  lemma OthersNotDelayed()
    ensures "MapData" !in DELAYED && LOVER !in DELAYED && "Lovership" !in DELAYED
  {
  }

  lemma LoneRequest(data: seq<Entry>, npc: Option<Json>)
    requires Delays(CountedEntries(data)) && TakenNpc(data, npc).None?
    ensures Requested(data, npc) == CountedEntries(data)
  {
    hide Immutable, CountedEntries;
    var obj := CountedEntries(data);
    assert Keys(obj) == {obj[0].0};
    OthersNotDelayed();
    DropNothing(obj, {"MapData", LOVER});
    assert obj + [] == obj;
  }

  /** An update, held back or not, is an immediate write of everything it requests. */
  lemma UpdateIsThrough(c: Cache, sid: string, data: seq<Entry>, npc: Option<Json>)
    requires ValidCache(c) && Unclashing(c, sid, data, npc) && sid in c.sessions
    ensures
      var name := c.sessions[sid].name;
      ValidCache(AfterUpdate(c, sid, data, npc)) &&
      Through(AfterUpdate(c, sid, data, npc)) ==
      Through(c)[name := Written(Through(c)[name], Requested(data, npc))]
  {
    hide Immutable, CountedEntries, Updated, Held, Tidy, NoClash, Requested, TakenNpc, Written, Keys, DistinctKeys;
    var s, obj, entries := c.sessions[sid], CountedEntries(data), Requested(data, npc);
    var doc := if Delays(obj) then c.docs[s.name] else Written(c.docs[s.name], entries);
    WrittenTidy(c.docs[s.name], entries);
    ReplaceOne(c, sid, doc, SessionAfter(s, obj));
    assert c.docs[s.name := c.docs[s.name]] == c.docs;
    UpdateOverlay(c.docs[s.name], s, data, npc);
    HeldForSession(c, sid);
  }

  lemma CharacterUpdateIsThrough(c: Cache, sid: string, appearance: Json)
    requires ValidCache(c) && sid in c.sessions
    ensures
      var name := c.sessions[sid].name;
      ValidCache(AfterCharacterUpdate(c, sid, appearance)) &&
      Through(AfterCharacterUpdate(c, sid, appearance)) ==
      Through(c)[name := Written(Through(c)[name], [("Appearance", appearance)])]
    ensures
      var c' := AfterCharacterUpdate(c, sid, appearance);
      && c'.docs == c.docs && c'.sessions.Keys == c.sessions.Keys && c'.sessions - {sid} == c.sessions - {sid}
      && c'.sessions[sid] == c.sessions[sid].(appearance := Some(appearance))
  {
    hide Updated, Tidy, Held;
    var s := c.sessions[sid];
    var doc := c.docs[s.name];
    ReplaceOne(c, sid, doc, s.(appearance := Some(appearance)));
    assert c.docs[s.name := doc] == c.docs;
    HoldAppearance(s, appearance);
    DelayIsWrite(doc, Held(s), [("Appearance", appearance)]);
    HeldForSession(c, sid);
  }

  lemma HoldAppearance(s: Session, appearance: Json)
    ensures Held(s.(appearance := Some(appearance))) == Held(s)["Appearance" := appearance]
  {
  }

  /** Flushing brings the store up to date and changes nothing that can be seen. */
  lemma FlushIsInvisible(c: Cache)
    requires ValidCache(c)
    ensures ValidCache(AfterFlush(c)) && Through(AfterFlush(c)) == Through(c)
    ensures AfterFlush(c).docs == Through(c) && AfterFlush(c).sessions.Keys == c.sessions.Keys
    ensures forall sid :: sid in c.sessions ==>
      AfterFlush(c).sessions[sid] == Session(c.sessions[sid].name, None, None, None)
  {
    hide Tidy, Held, HeldFor, Through;
    var c' := AfterFlush(c);
    ThroughKeys(c);
    ThroughKeys(c');
    forall n | n in c.docs ensures Tidy(c'.docs[n]) && Through(c')[n] == c'.docs[n] {
      HeldTidy(c.docs[n], HeldFor(c, n));
      FlushHoldsNothing(c, n);
      ThroughAt(c, n);
      ThroughAt(c', n);
      assert c'.docs[n] + map[] == c'.docs[n];
    }
    assert forall sid :: sid in c'.sessions ==>
      sid in c.sessions && c'.sessions[sid].name == c.sessions[sid].name;
  }

  lemma FlushHoldsNothing(c: Cache, n: string)
    ensures HeldFor(AfterFlush(c), n) == map[]
  {
    hide Held, Through;
  }

  /** An ordinary disconnect writes what the session held before forgetting it. */
  lemma DisconnectIsInvisible(c: Cache, sid: string)
    requires ValidCache(c) && sid in c.sessions
    ensures
      var c', name := AfterDisconnect(c, sid), c.sessions[sid].name;
      ValidCache(c') && Through(c') == Through(c) && c'.docs[name] == Through(c)[name]
  {
    hide Tidy, Held, HeldFor, Through;
    var s := c.sessions[sid];
    HeldTidy(c.docs[s.name], Held(s));
    DropOne(c, sid, c.docs[s.name] + Held(s));
    HeldForSession(c, sid);
    ThroughAt(c, s.name);
    WriteSame(Through(c), s.name);
  }

  lemma DropOne(c: Cache, sid: string, doc: Fields)
    requires ValidCache(c) && sid in c.sessions && Tidy(doc)
    ensures
      var name := c.sessions[sid].name;
      var c' := Cache(c.docs[name := doc], c.sessions - {sid});
      ValidCache(c') && Through(c') == Through(c)[name := doc]
  {
    hide Tidy, Held, HeldFor, Through;
    var name := c.sessions[sid].name;
    var c' := Cache(c.docs[name := doc], c.sessions - {sid});
    assert c'.sessions - {sid} == c.sessions - {sid};
    assert ValidCache(c') && !Online(c', name);
    ThroughOne(c, c', sid);
    NothingHeld(c', name);
    assert doc + map[] == doc;
  }

  /** What the session holds back of the account's three fields is what the store has already. */
  predicate HoldsNothingNew(doc: Fields, s: Session) {
    && (s.appearance.Some? ==> "Appearance" in doc && doc["Appearance"] == s.appearance.value)
    && (s.skill.Some? ==> "Skill" in doc && doc["Skill"] == s.skill.value)
    && (s.game.Some? ==> "Game" in doc && doc["Game"] == s.game.value)
  }

  lemma NothingNewIff(doc: Fields, s: Session)
    ensures HoldsNothingNew(doc, s) <==> doc + Held(s) == doc
  {
    var all := doc + Held(s);
    assert s.appearance.Some? ==> "Appearance" in all && all["Appearance"] == s.appearance.value;
    assert s.skill.Some? ==> "Skill" in all && all["Skill"] == s.skill.value;
    assert s.game.Some? ==> "Game" in all && all["Game"] == s.game.value;
  }

  /** A duplicate login is invisible exactly when the session it drops held nothing new. */
  lemma KickIsInvisibleIff(c: Cache, sid: string)
    requires ValidCache(c) && sid in c.sessions
    ensures
      var doc := c.docs[c.sessions[sid].name];
      ValidCache(AfterKick(c, sid)) &&
      (Through(AfterKick(c, sid)) == Through(c) <==> HoldsNothingNew(doc, c.sessions[sid]))
  {
    hide Tidy, Held, HeldFor, HoldsNothingNew;
    var name := c.sessions[sid].name;
    NothingNewIff(c.docs[name], c.sessions[sid]);
    DropOne(c, sid, c.docs[name]);
    assert c.docs[name := c.docs[name]] == c.docs;
    HeldForSession(c, sid);
    assert Through(AfterKick(c, sid))[name] == c.docs[name];
    assert Through(c)[name := Through(c)[name]] == Through(c);
  }

  lemma LoginIsInvisible(c: Cache, sid: string, name: string)
    requires ValidCache(c) && sid !in c.sessions && name in c.docs && !Online(c, name)
    ensures ValidCache(AfterLogin(c, sid, name)) && Through(AfterLogin(c, sid, name)) == Through(c)
  {
    hide Tidy, Held, HeldFor;
    var c' := AfterLogin(c, sid, name);
    assert c'.sessions - {sid} == c.sessions - {sid};
    assert ValidCache(c');
    HeldForSession(c', sid);
    NothingHeld(c, name);
    forall n | n in c.docs ensures HeldFor(c', n) == HeldFor(c, n) {
      if n != name {
        HeldForOthers(c', c, sid, n);
      }
    }
  }

  // ----- Whole runs -----

  datatype Op =
    | Update(sid: string, data: seq<Entry>, npc: Option<Json>)
    | CharacterUpdate(sid: string, appearance: Json)
    | Flush
    | Disconnect(sid: string)
    | Kick(sid: string)
    | Login(sid: string, name: string)

  ghost function Step(c: Cache, op: Op): Cache {
    match op
    case Update(sid, data, npc) => AfterUpdate(c, sid, data, npc)
    case CharacterUpdate(sid, appearance) => AfterCharacterUpdate(c, sid, appearance)
    case Flush => AfterFlush(c)
    case Disconnect(sid) => AfterDisconnect(c, sid)
    case Kick(sid) => AfterKick(c, sid)
    case Login(sid, name) => AfterLogin(c, sid, name)
  }

  /** Updates that do not clash, kicks that lose nothing, logins of accounts not online. */
  ghost predicate Allowed(c: Cache, op: Op) {
    match op
    case Update(sid, data, npc) => Unclashing(c, sid, data, npc)
    case Kick(sid) =>
      sid in c.sessions && c.sessions[sid].name in c.docs ==>
        HoldsNothingNew(c.docs[c.sessions[sid].name], c.sessions[sid])
    case Login(sid, name) => sid !in c.sessions && name in c.docs && !Online(c, name)
    case _ => true
  }

  /** The server without a cache: documents, and whose session is whose. */
  datatype Plain = Plain(docs: map<string, Fields>, who: map<string, string>)

  function WriteNow(p: Plain, sid: string, entries: seq<Entry>): Plain {
    if sid in p.who && p.who[sid] in p.docs
    then p.(docs := p.docs[p.who[sid] := Written(p.docs[p.who[sid]], entries)])
    else p
  }

  function PlainStep(p: Plain, op: Op): Plain {
    match op
    case Update(sid, data, npc) => WriteNow(p, sid, Requested(data, npc))
    case CharacterUpdate(sid, appearance) => WriteNow(p, sid, [("Appearance", appearance)])
    case Flush => p
    case Disconnect(sid) => p.(who := p.who - {sid})
    case Kick(sid) => p.(who := p.who - {sid})
    case Login(sid, name) => p.(who := p.who[sid := name])
  }

  ghost function Who(c: Cache): map<string, string> {
    map sid | sid in c.sessions :: c.sessions[sid].name
  }

  ghost function Meaning(c: Cache): Plain {
    Plain(Through(c), Who(c))
  }

  lemma WhoKept(c: Cache, sid: string, s: Session)
    requires sid in c.sessions && s.name == c.sessions[sid].name
    ensures Who(c.(sessions := c.sessions[sid := s])) == Who(c)
  {
  }

  /** Every allowed step of the cache is one step of the server that writes at once. */
  lemma StepRefines(c: Cache, op: Op)
    requires ValidCache(c) && Allowed(c, op)
    ensures ValidCache(Step(c, op)) && Meaning(Step(c, op)) == PlainStep(Meaning(c), op)
  {
    hide AfterFlush, SessionAfter, Through, HeldFor, Held, Tidy, Written, Requested, Immutable, HoldsNothingNew;
    hide CountedEntries, NoClash, TakenNpc, Online;
    match op
    case Update(sid, data, npc) =>
      if sid in c.sessions {
        UpdateIsThrough(c, sid, data, npc);
        UpdateKeepsWho(c, sid, data, npc);
        ThroughKeys(c);
      }
    case CharacterUpdate(sid, appearance) =>
      if sid in c.sessions {
        CharacterUpdateIsThrough(c, sid, appearance);
        WhoKept(c, sid, c.sessions[sid].(appearance := Some(appearance)));
        ThroughKeys(c);
      }
    case Flush =>
      FlushIsInvisible(c);
      FlushKeepsWho(c);
    case Disconnect(sid) =>
      if sid in c.sessions {
        DisconnectIsInvisible(c, sid);
      }
      WhoDrops(c, sid);
    case Kick(sid) =>
      if sid in c.sessions {
        KickIsInvisibleIff(c, sid);
      } else {
        assert c.sessions - {sid} == c.sessions;
      }
      WhoDrops(c, sid);
    case Login(sid, name) =>
      LoginIsInvisible(c, sid, name);
      assert Who(AfterLogin(c, sid, name)) == Who(c)[sid := name];
  }

  lemma ThroughKeys(c: Cache)
    ensures Through(c).Keys == c.docs.Keys
  {
  }

  lemma UpdateKeepsWho(c: Cache, sid: string, data: seq<Entry>, npc: Option<Json>)
    requires sid in c.sessions
    ensures Who(AfterUpdate(c, sid, data, npc)) == Who(c)
  {
    hide Immutable, Updated, Requested, CountedEntries, Drop;
    var s := SessionAfter(c.sessions[sid], CountedEntries(data));
    WhoKept(c, sid, s);
  }

  lemma FlushKeepsWho(c: Cache)
    ensures Who(AfterFlush(c)) == Who(c)
  {
  }

  lemma WhoDrops(c: Cache, sid: string)
    ensures Who(AfterDisconnect(c, sid)) ==
      if sid in c.sessions && c.sessions[sid].name !in c.docs then Who(c) else Who(c) - {sid}
    ensures Who(AfterKick(c, sid)) == Who(c) - {sid}
  {
  }

  ghost function Run(c: Cache, ops: seq<Op>): Cache
    decreases |ops|
  {
    if ops == [] then c else Step(Run(c, ops[..|ops| - 1]), ops[|ops| - 1])
  }

  function PlainRun(p: Plain, ops: seq<Op>): Plain
    decreases |ops|
  {
    if ops == [] then p else PlainStep(PlainRun(p, ops[..|ops| - 1]), ops[|ops| - 1])
  }

  ghost predicate AllowedRun(c: Cache, ops: seq<Op>) {
    forall i :: 0 <= i < |ops| ==> Allowed(Run(c, ops[..i]), ops[i])
  }

  /** Over a whole run the cache cannot be told from a server that writes at once, and a flush at the
      end leaves in the store exactly the documents that server would hold. */
  lemma {:induction false} RunRefines(c: Cache, ops: seq<Op>)
    requires ValidCache(c) && AllowedRun(c, ops)
    ensures ValidCache(Run(c, ops)) && Meaning(Run(c, ops)) == PlainRun(Meaning(c), ops)
    ensures AfterFlush(Run(c, ops)).docs == PlainRun(Meaning(c), ops).docs
    decreases |ops|
  {
    hide Step, PlainStep, Through, Allowed, ValidCache;
    if ops != [] {
      var before := ops[..|ops| - 1];
      forall i | 0 <= i < |before| ensures Allowed(Run(c, before[..i]), before[i]) {
        assert before[..i] == ops[..i];
      }
      RunRefines(c, before);
      StepRefines(Run(c, before), ops[|ops| - 1]);
    }
  }

  // ----- What a client's update can write, key by key -----

  /** The fields that are the server's own: identity, relations and session. */
  predicate IsServers(field: string) {
    || field in {"AccountName", "Password", "Email", "Name", "MemberNumber", "Creation", "LastLogin"}
    || field in {"Ownership", "Lovership", "Difficulty"}
    || field in {"Pose", "ActivePose", "ChatRoom", "ID", "Socket", "Inventory", "_id", "Environment", "AssetFamily"}
    || field in {"DelayedAppearanceUpdate", "DelayedSkillUpdate", "DelayedGameUpdate"}
  }

  lemma ServersAreImmutable(field: string)
    ensures IsServers(field) <==> field in Immutable()
  {
  }

  /** Naming one of the server's own fields has no effect: without a dotted key into it, an update leaves it as
      it is stored, but for the list of lovers when an NPC joins it. */
  lemma ClientCannotWrite(doc: Fields, data: seq<Entry>, npc: Option<Json>, field: string)
    requires Tidy(doc) && IsServers(field) && !DottedInto(Keys(data), field)
    requires field == "Lovership" ==> TakenNpc(data, npc).None?
    ensures
      var doc' := Written(doc, Requested(data, npc));
      (field in doc' <==> field in doc) && (field in doc ==> doc'[field] == doc[field])
  {
    hide Immutable, CountedEntries, Tidy, Written, IsServers, Target, Requested;
    var entries := Requested(data, npc);
    forall e | e in entries ensures Target(e.0) == [] || Target(e.0)[0] != field {
      RequestedEntry(data, npc, e);
      ServersAreImmutable(field);
      TargetsOther(data, e, field);
    }
    LeftAlone(doc, entries, field);
  }

  /** An entry of what is stored was sent under a key that is the client's to write, or is the list of lovers. */
  lemma RequestedEntry(data: seq<Entry>, npc: Option<Json>, e: Entry)
    requires e in Requested(data, npc)
    ensures
      || (e in data && e.0 !in Immutable() && e.0 !in {"MapData", "Lover"})
      || (Some(e.1) == TakenNpc(data, npc) && e.0 == "Lovership")
  {
    hide Immutable;
  }

  lemma TargetsOther(data: seq<Entry>, e: Entry, field: string)
    requires (e.0 == "Lovership" && field != "Lovership") || (e in data && e.0 != field)
    requires !DottedInto(Keys(data), field)
    ensures Target(e.0) == [] || Target(e.0)[0] != field
  {
    if e in data {
      assert e.0 in Keys(data);
    }
  }

  predicate Agree(a: Fields, b: Fields, k: string) {
    (k in a <==> k in b) && (k in a ==> a[k] == b[k])
  }

  /** A field that no entry writes at or below is stored as it was. */
  lemma LeftAlone(doc: Fields, entries: seq<Entry>, field: string)
    requires Tidy(doc) && forall e :: e in entries ==> Target(e.0) == [] || Target(e.0)[0] != field
    ensures Agree(Written(doc, entries), doc, field)
  {
    hide Target, Normal, Updated, Merge;
    MergeAside(doc, entries, field);
    UpdatedAside(doc, entries, field);
    NormalAt(Updated(doc, entries), doc, field);
  }

  lemma UpdatedAside(doc: Fields, entries: seq<Entry>, field: string)
    requires Tidy(doc) && Agree(Merge(doc, entries), doc, field)
    ensures Agree(Updated(doc, entries), doc, field)
  {
    hide Tidy, Merge, TypedAt;
    TidyIff(doc);
    if IsProtected(field) {
      assert KeyOf(ColumnOf(field).value) == field;
    }
  }

  lemma NormalAt(a: Fields, b: Fields, k: string)
    requires Agree(a, b, k)
    ensures Agree(Normal(a), Normal(b), k)
  {
    hide Normal;
    if IsProtected(k) {
      NormalColumn(a, ColumnOf(k).value);
      NormalColumn(b, ColumnOf(k).value);
    } else {
      NormalOther(a, k);
      NormalOther(b, k);
    }
  }

  /** Any other field named without a dot, with no dotted key into it, is stored as sent, unless the update is
      held back. */
  lemma ClientWrites(doc: Fields, data: seq<Entry>, npc: Option<Json>, i: nat)
    requires DistinctKeys(data) && i < |data| && '.' !in data[i].0 && !IsServers(data[i].0)
    requires data[i].0 !in {"MapData", "Lover"} && !DottedInto(Keys(data), data[i].0)
    ensures
      var doc' := Written(doc, Requested(data, npc));
      data[i].0 in doc' && doc'[data[i].0] == data[i].1
  {
    hide Immutable, CountedEntries, Normal, Updated, Merge, TakenNpc, Drop, IsServers;
    var k, entries := data[i].0, Requested(data, npc);
    ServersAreImmutable(k);
    SomeServers();
    ProtectedAreServers(k);
    var j := RequestedAt(data, npc, i);
    PlainTarget(k);
    forall x | 0 <= x < |entries| && x != j ensures Target(entries[x].0) == [] || Target(entries[x].0)[0] != k {
      OtherTarget(data, npc, j, x);
    }
    MergeLiteral(doc, entries, j);
    UnprotectedUpdated(doc, entries, k);
    NormalOther(Updated(doc, entries), k);
  }

  lemma SomeServers()
    ensures IsServers("_id") && IsServers("AccountName") && IsServers("Lovership")
  {
  }

  lemma ProtectedAreServers(k: string)
    ensures IsProtected(k) ==> IsServers(k)
  {
  }

  lemma PlainTarget(k: string)
    requires '.' !in k && k !in {"_id", "MapData", "AccountName"}
    ensures Target(k) == [k]
  {
  }

  lemma UnprotectedUpdated(doc: Fields, entries: seq<Entry>, k: string)
    requires !IsProtected(k) && k in Merge(doc, entries)
    ensures k in Updated(doc, entries) && Updated(doc, entries)[k] == Merge(doc, entries)[k]
  {
    hide Merge;
  }

  /** Where the entry sent at `i` is among those stored. */
  lemma RequestedAt(data: seq<Entry>, npc: Option<Json>, i: nat) returns (j: nat)
    requires DistinctKeys(data) && i < |data| && data[i].0 !in Immutable() && data[i].0 !in {"MapData", "Lover"}
    ensures j < |Requested(data, npc)| && Requested(data, npc)[j] == data[i]
    ensures DistinctKeys(Requested(data, npc))
  {
    hide Immutable, CountedEntries, DistinctKeys, TakenNpc;
    var obj := CountedEntries(data);
    var kept := Drop(obj, {"MapData", LOVER});
    CountedHas(data, i);
    j :| 0 <= j < |kept| && kept[j] == data[i];
    LovershipIsServers();
    assert "Lovership" !in Keys(kept);
    NewKeyStaysDistinct(kept, One("Lovership", TakenNpc(data, npc)));
  }

  lemma CountedHas(data: seq<Entry>, i: nat)
    requires DistinctKeys(data) && i < |data| && data[i].0 !in Immutable() && data[i].0 != "Lover"
    ensures data[i] in CountedEntries(data) && DistinctKeys(CountedEntries(data))
    ensures Keys(CountedEntries(data)) !! Immutable()
  {
    hide Immutable;
  }

  lemma NewKeyStaysDistinct(kept: seq<Entry>, more: seq<Entry>)
    requires DistinctKeys(kept) && |more| <= 1 && (more != [] ==> more[0].0 !in Keys(kept))
    ensures DistinctKeys(kept + more)
  {
    assert forall x :: 0 <= x < |kept| ==> kept[x] in kept && kept[x].0 in Keys(kept);
  }

  lemma LovershipIsServers()
    ensures "Lovership" in Immutable()
  {
  }

  lemma OtherTarget(data: seq<Entry>, npc: Option<Json>, j: nat, x: nat)
    requires DistinctKeys(data) && DistinctKeys(Requested(data, npc))
    requires j < |Requested(data, npc)| && x < |Requested(data, npc)| && x != j && Requested(data, npc)[j] in data
    requires !DottedInto(Keys(data), Requested(data, npc)[j].0) && Requested(data, npc)[j].0 != "Lovership"
    ensures
      var e := Requested(data, npc)[x];
      Target(e.0) == [] || Target(e.0)[0] != Requested(data, npc)[j].0
  {
    hide Requested, Target;
    var e := Requested(data, npc)[x];
    RequestedEntry(data, npc, e);
    TargetsOther(data, e, Requested(data, npc)[j].0);
  }

  /** The keys an update is judged by: those that are the client's to write, without a `Lover` that is a string. */
  ghost predicate IsJudgedBy(data: seq<Entry>, keys: set<string>) {
    forall k :: k in keys <==>
      k in Keys(data) && !IsServers(k) && !(k == "Lover" && exists t :: ("Lover", Str(t)) in data)
  }

  lemma JudgedKeys(data: seq<Entry>, keys: set<string>)
    requires DistinctKeys(data) && IsJudgedBy(data, keys)
    ensures Keys(CountedEntries(data)) == keys == Counted(Keys(data), LoverOf(Drop(data, Immutable())).Some?)
  {
    hide Immutable, IsServers, CountedEntries, DistinctKeys;
    CountedDistinct(data);
    LoverIsText(data);
    forall k ensures k in keys <==> k in Counted(Keys(data), LoverOf(Drop(data, Immutable())).Some?) {
      ServersAreImmutable(k);
    }
  }

  lemma LoverIsText(data: seq<Entry>)
    requires DistinctKeys(data)
    ensures LoverOf(Drop(data, Immutable())).Some? <==> exists t :: ("Lover", Str(t)) in data
  {
    hide Immutable, IsServers;
    ServersAreImmutable("Lover");
    LoverIsClients();
    var obj := Drop(data, Immutable());
    if t :| ("Lover", Str(t)) in data {
      assert ("Lover", Str(t)) in obj && "Lover" in Keys(obj);
      var v := ValueOf(obj, "Lover").value;
      SameEntry(obj, ("Lover", Str(t)), ("Lover", v));
    }
  }

  lemma LoverIsClients()
    ensures !IsServers("Lover")
  {
  }

  lemma SameEntry(entries: seq<Entry>, a: Entry, b: Entry)
    requires DistinctKeys(entries) && a in entries && b in entries && a.0 == b.0
    ensures a == b
  {
    var i :| 0 <= i < |entries| && entries[i] == a;
    var j :| 0 <= j < |entries| && entries[j] == b;
  }

  /** A lone `Appearance`, `Skill` or `Game` is held back and nothing is stored; every other update is stored at
      once, and one of several keys lets go of the values it brings. */
  lemma HeldBackIff(c: Cache, sid: string, data: seq<Entry>, npc: Option<Json>, keys: set<string>)
    requires sid in c.sessions && c.sessions[sid].name in c.docs && DistinctKeys(data) && IsJudgedBy(data, keys)
    ensures
      var s, c' := c.sessions[sid], AfterUpdate(c, sid, data, npc);
      && c'.sessions.Keys == c.sessions.Keys && c'.sessions - {sid} == c.sessions - {sid}
      && (if keys == {"Appearance"} then
            c'.docs == c.docs && c'.sessions[sid] == s.(appearance := ValueOf(data, "Appearance"))
          else if keys == {"Skill"} then
            c'.docs == c.docs && c'.sessions[sid] == s.(skill := ValueOf(data, "Skill"))
          else if keys == {"Game"} then
            c'.docs == c.docs && c'.sessions[sid] == s.(game := ValueOf(data, "Game"))
          else
            && c'.docs == c.docs[s.name := Written(c.docs[s.name], Requested(data, npc))]
            && c'.sessions[sid] == s.(appearance := if "Appearance" in keys then None else s.appearance,
                                      skill := if "Skill" in keys then None else s.skill,
                                      game := if "Game" in keys then None else s.game))
  {
    hide Immutable, IsServers, CountedEntries, Requested, Written, IsJudgedBy, OnlyDelayed, SessionAfter, Counted;
    hide DistinctKeys, Keys, ValueOf;
    var obj := CountedEntries(data);
    JudgedKeys(data, keys);
    DelaysIffOnlyDelayed(data);
    OnlyDelayedIff(keys);
    CountedDistinct(data);
    AsManyKeys(obj);
    CountedValues(data, "Appearance");
    CountedValues(data, "Skill");
    CountedValues(data, "Game");
    SessionByKeys(c.sessions[sid], obj, keys);
  }

  lemma CountedValues(data: seq<Entry>, k: string)
    requires DistinctKeys(data)
    ensures k in Keys(CountedEntries(data)) ==> ValueOf(CountedEntries(data), k) == ValueOf(data, k)
  {
    hide Immutable;
    var obj := CountedEntries(data);
    if k in Keys(obj) {
      var v := ValueOf(obj, k).value;
      assert (k, v) in data;
      SameEntry(data, (k, v), (k, ValueOf(data, k).value));
    }
  }

  lemma SessionByKeys(s: Session, obj: seq<Entry>, keys: set<string>)
    requires Keys(obj) == keys && |keys| == |obj|
    ensures
      SessionAfter(s, obj) ==
        if keys == {"Appearance"} then s.(appearance := ValueOf(obj, "Appearance"))
        else if keys == {"Skill"} then s.(skill := ValueOf(obj, "Skill"))
        else if keys == {"Game"} then s.(game := ValueOf(obj, "Game"))
        else s.(appearance := if "Appearance" in keys then None else s.appearance,
                skill := if "Skill" in keys then None else s.skill,
                game := if "Game" in keys then None else s.game)
  {
    var a, b, c := {"Appearance"}, {"Skill"}, {"Game"};
    assert |a| == |b| == |c| == 1;
    if |obj| == 1 {
      assert obj == [obj[0]] && keys == {obj[0].0};
    }
  }

  // ----- Exactly which updates the cache can get wrong -----

  /** Held values and an update's keys for which, whatever the stored document and the values, holding back is
      invisible. */
  ghost predicate AlwaysShowsThrough(held: set<string>, keys: set<string>) {
    forall doc: Fields, h: Fields, entries :: Tidy(doc) && h.Keys == held && Lists(entries, keys) ==>
        Written(doc + h, entries) == Written(doc, entries) + (h - keys)
  }

  /** A dotted key below a held field that the update does not replace is the only thing that can
      make the store disagree with immediate writing. */
  lemma NoClashIsExact(held: set<string>, keys: set<string>)
    requires held <= DELAYED
    ensures NoClash(held, keys) <==> AlwaysShowsThrough(held, keys)
  {
    hide NoClash, AlwaysShowsThrough;
    if NoClash(held, keys) {
      NoClashShowsThrough(held, keys);
    } else {
      ClashShows(held, keys);
    }
  }

  lemma NoClashShowsThrough(held: set<string>, keys: set<string>)
    requires held <= DELAYED && NoClash(held, keys)
    ensures AlwaysShowsThrough(held, keys)
  {
    hide NoClash, Tidy, Written;
    forall doc: Fields, h: Fields, entries | Tidy(doc) && h.Keys == held && Lists(entries, keys)
      ensures Written(doc + h, entries) == Written(doc, entries) + (h - keys)
    {
      WrittenUnderHeld(doc, h, entries);
    }
  }

  lemma ClashShows(held: set<string>, keys: set<string>)
    requires held <= DELAYED && !NoClash(held, keys)
    ensures !AlwaysShowsThrough(held, keys)
  {
    hide Written, Tidy, DottedInto;
    var r :| r in held && r !in keys && DottedInto(keys, r);
    var entries := ListKeys(keys);
    var h := map k | k in held :: Str("held");
    var doc: Fields := Normal(map[]);
    NormalIsTidy(map[]);
    ClashShowsAt(doc, h, entries, r);
  }

  lemma ClashShowsAt(doc: Fields, h: Fields, entries: seq<Entry>, r: string)
    requires h.Keys <= DELAYED && r in h && h[r] == Str("held")
    requires r !in Keys(entries) && DottedInto(Keys(entries), r)
    requires forall e :: e in entries ==> e.1 == Null
    ensures Written(doc + h, entries) != Written(doc, entries) + (h - Keys(entries))
  {
    hide Merge, Normal;
    var k :| k in Keys(entries) && '.' in k && Target(k) != [] && Target(k)[0] == r;
    var i :| 0 <= i < |entries| && entries[i].0 == k;
    MergeReaches(doc + h, entries, i, r);
    DelayedNotProtected(r);
    var updated := Updated(doc + h, entries);
    assert updated[r] == Merge(doc + h, entries)[r];
    NormalOther(updated, r);
    assert (Written(doc, entries) + (h - Keys(entries)))[r] == Str("held");
  }

  /** An update of one plain key is judged by that key and asks to store it. */
  lemma OneEntry(e: Entry)
    requires e.0 !in Immutable() && e.0 !in {LOVER, "MapData"}
    ensures DistinctKeys([e]) && CountedEntries([e]) == [e] == Requested([e], None)
  {
    hide Immutable;
    assert Keys([e]) == {e.0};
    DropNothing([e], Immutable());
    DropNothing([e], {"MapData", LOVER});
    assert [e] + [] == [e];
  }

  /** Holding `v` back as the appearance, and then writing below the appearance. */
  lemma HoldThenWrite(c: Cache, sid: string, held: Json, e: Entry)
    requires ValidCache(c) && sid in c.sessions && c.sessions[sid] == Empty(c.sessions[sid].name)
    requires '.' in e.0 && "Appearance" !in Immutable() && e.0 !in Immutable()
    ensures
      var c' := AfterUpdate(AfterUpdate(c, sid, [("Appearance", held)], None), sid, [e], None);
      var s := c.sessions[sid];
      c' == Cache(c.docs[s.name := Written(c.docs[s.name], [e])],
                  c.sessions[sid := Session(s.name, Some(held), None, None)])
  {
    hide Immutable, CountedEntries, Requested, Written, Tidy, DistinctKeys, Drop;
    OneEntry(("Appearance", held));
    OneEntry(e);
    assert Keys([e]) == {e.0} && Keys([("Appearance", held)]) == {"Appearance"};
    assert '.' !in "Appearance" && '.' !in "Skill" && '.' !in "Game";
    assert ValueOf([("Appearance", held)], "Appearance") == Some(held);
  }

  lemma WriteBelow(doc: Fields, key: string, v: Json)
    requires Target(key) == ["Appearance", "Item"]
    ensures Read(Written(doc, [(key, v)]), ["Appearance", "Item"]) == Some(v)
  {
    hide Normal, Target;
    var entries: seq<Entry> := [(key, v)];
    var path := ["Appearance", "Item"];
    assert entries[..0] == [];
    assert Merge(doc, entries) == Write(doc, path, v);
    ReadBack(doc, path, v);
    DelayedNotProtected("Appearance");
    NormalOther(Updated(doc, entries), "Appearance");
  }

  lemma AppearanceIsMutable()
    ensures "Appearance" !in Immutable()
  {
  }

  /** What the cache stores when a value is held back, a dotted key writes below its field, and the flush comes. */
  lemma HeldRun(c: Cache, sid: string, held: Json, e: Entry)
    requires ValidCache(c) && sid in c.sessions && c.sessions[sid] == Empty(c.sessions[sid].name)
    requires '.' in e.0 && e.0 !in Immutable()
    ensures
      var name := c.sessions[sid].name;
      var hold, write := Update(sid, [("Appearance", held)], None), Update(sid, [e], None);
      var docs := Step(Step(Step(c, hold), write), Flush).docs;
      name in docs && docs[name] == Written(c.docs[name], [e])["Appearance" := held]
  {
    hide Immutable, Tidy, Written, AfterUpdate, HeldFor;
    var s := c.sessions[sid];
    AppearanceIsMutable();
    HoldThenWrite(c, sid, held, e);
    var doc := Written(c.docs[s.name], [e]);
    var c' := Cache(c.docs[s.name := doc], c.sessions[sid := Session(s.name, Some(held), None, None)]);
    WrittenTidy(c.docs[s.name], [e]);
    assert ValidCache(c');
    HeldForSession(c', sid);
    assert doc + Held(c'.sessions[sid]) == doc["Appearance" := held];
  }

  /** What a server that writes at once stores in that run. */
  lemma PlainHeldRun(p: Plain, sid: string, held: Json, e: Entry)
    requires sid in p.who && p.who[sid] in p.docs
    requires "Appearance" !in Immutable() && e.0 !in Immutable() && e.0 !in {LOVER, "MapData"}
    ensures
      var name := p.who[sid];
      var hold, write := Update(sid, [("Appearance", held)], None), Update(sid, [e], None);
      var docs := PlainStep(PlainStep(PlainStep(p, hold), write), Flush).docs;
      name in docs && docs[name] == Written(Written(p.docs[name], [("Appearance", held)]), [e])
  {
    hide Immutable, Written, Requested, CountedEntries;
    OneEntry(("Appearance", held));
    OneEntry(e);
  }

  /** The run that loses a write: a value is held back, a dotted key writes below its field, and the flush puts
      the held value over it. A server that writes at once ends with what the dotted key wrote. */
  lemma DottedWriteIsLost(c: Cache, sid: string, held: Json, key: string, v: Json)
    requires ValidCache(c) && sid in c.sessions && c.sessions[sid] == Empty(c.sessions[sid].name)
    requires '.' in key && key !in Immutable() && Target(key) == ["Appearance", "Item"] && !held.Obj?
    ensures
      var name := c.sessions[sid].name;
      var hold, write := Update(sid, [("Appearance", held)], None), Update(sid, [(key, v)], None);
      var docs := Step(Step(Step(c, hold), write), Flush).docs;
      var plain := PlainStep(PlainStep(PlainStep(Meaning(c), hold), write), Flush).docs;
      && name in docs && Read(docs[name], ["Appearance"]) == Some(held)
      && Read(docs[name], ["Appearance", "Item"]).None?
      && name in plain && Read(plain[name], ["Appearance", "Item"]) == Some(v)
  {
    hide Immutable, Tidy, Written, Step, PlainStep, Target;
    var name := c.sessions[sid].name;
    AppearanceIsMutable();
    HeldRun(c, sid, held, (key, v));
    ThroughKeys(c);
    PlainHeldRun(Meaning(c), sid, held, (key, v));
    WriteBelow(Written(Through(c)[name], [("Appearance", held)]), key, v);
  }

  lemma DelayedNotProtected(r: string)
    requires r in DELAYED
    ensures !IsProtected(r)
  {
    if IsProtected(r) {
      ProtectedNotHeld(r);
    }
  }

  /** A field some key writes at or below ends up an object or one of the values written. */
  lemma {:induction false} MergeReaches(doc: Fields, entries: seq<Entry>, i: nat, r: string)
    requires i < |entries| && Target(entries[i].0) != [] && Target(entries[i].0)[0] == r
    requires forall e :: e in entries ==> e.1 == Null
    ensures r in Merge(doc, entries) && (Merge(doc, entries)[r].Obj? || Merge(doc, entries)[r] == Null)
    decreases |entries|
  {
    hide Target;
    var n := |entries| - 1;
    assert entries[n] in entries;
    if i < n {
      assert entries[..n][i] == entries[i];
      MergeReaches(doc, entries[..n], i, r);
    }
  }

  // ----- The session and the store as the handlers change them -----

  class WriteBack {
    var docs: map<string, Fields>
    var sessions: map<string, Session>

    constructor (docs: map<string, Fields>)
      ensures State() == Cache(docs, map[])
    {
      this.docs := docs;
      sessions := map[];
    }

    function State(): Cache
      reads this
    {
      Cache(docs, sessions)
    }

    method UpdateFields(name: string, entries: seq<Entry>)
      modifies this`docs
      ensures docs == if name in old(docs) then old(docs)[name := Written(old(docs)[name], entries)] else old(docs)
    {
      if entries != [] && name in docs {
        docs := docs[name := Normal(Updated(docs[name], entries))];
      }
      assert name in old(docs) ==> old(docs)[name := old(docs)[name]] == old(docs);
    }

    /** `npc` is the cleaned list of lovers, when the `Lover` of the update became one. */
    method HandleAccountUpdate(sid: string, data: seq<Entry>, npc: Option<Json>)
      requires ValidCache(State())
      requires DistinctKeys(data)
      modifies this
      ensures State() == AfterUpdate(old(State()), sid, data, npc)
    {
      hide Updated, Immutable, ValueOf, Written, Tidy, SessionAfter, Delays;
      if sid !in sessions {
        return;
      }
      var obj := Drop(data, Immutable());
      var lovership := None;
      if LoverOf(obj).Some? {
        lovership := npc;
        obj := Drop(obj, {LOVER});
      }
      var s, shouldPersist := Judge(sessions[sid], obj);
      sessions := sessions[sid := s];
      if shouldPersist {
        UpdateFields(s.name, Drop(obj, {"MapData", LOVER}) + One("Lovership", lovership));
      }
    }

    /** What the session holds after an update, and whether the update is stored now. */
    static method Judge(before: Session, obj: seq<Entry>) returns (s: Session, shouldPersist: bool)
      ensures s == SessionAfter(before, obj) && shouldPersist == !Delays(obj) && s.name == before.name
    {
      hide ValueOf;
      var keys := Keys(obj);
      s, shouldPersist := before, true;
      if |obj| == 1 {
        assert obj == [obj[0]] && keys == {obj[0].0};
        if "Appearance" in keys {
          s := s.(appearance := ValueOf(obj, "Appearance"));
          shouldPersist := false;
        } else if "Skill" in keys {
          s := s.(skill := ValueOf(obj, "Skill"));
          shouldPersist := false;
        } else if "Game" in keys {
          s := s.(game := ValueOf(obj, "Game"));
          shouldPersist := false;
        }
      } else if |obj| > 1 {
        if "Appearance" in keys {
          s := s.(appearance := None);
        }
        if "Skill" in keys {
          s := s.(skill := None);
        }
        if "Game" in keys {
          s := s.(game := None);
        }
      }
    }

    /** Another player dressed this one; `appearance` is the array the checks before let through. */
    method HandleCharacterUpdate(target: string, appearance: Json)
      modifies this
      ensures State() == AfterCharacterUpdate(old(State()), target, appearance)
    {
      if target in sessions {
        sessions := sessions[target := sessions[target].(appearance := Some(appearance))];
      }
    }

    method OnDisconnectCleanup(sid: string)
      requires ValidCache(State())
      modifies this
      ensures State() == AfterDisconnect(old(State()), sid)
    {
      hide Updated, Held, HeldEntries;
      if sid in sessions {
        var s := sessions[sid];
        WriteHeld(docs[s.name], s);
        UpdateFields(s.name, HeldEntries(s));
        sessions := sessions - {sid};
      }
    }

    /** Takes what every session holds back, and then writes it account by account. */
    method FlushDelayedUpdates()
      requires ValidCache(State())
      modifies this
      ensures State() == AfterFlush(old(State()))
    {
      var pending := TakeAll();
      WriteAll(old(State()), pending);
    }

    method TakeAll() returns (pending: map<string, Session>)
      modifies this`sessions
      ensures pending == old(sessions)
      ensures sessions == map sid | sid in old(sessions) :: Empty(old(sessions)[sid].name)
    {
      pending := map[];
      var todo := sessions.Keys;
      while todo != {}
        invariant todo <= old(sessions).Keys == sessions.Keys
        invariant pending.Keys == old(sessions).Keys - todo
        invariant forall sid :: sid in pending ==> pending[sid] == old(sessions)[sid]
        invariant forall sid :: sid in sessions ==>
          sessions[sid] == if sid in todo then old(sessions)[sid] else Empty(old(sessions)[sid].name)
      {
        var sid :| sid in todo;
        pending := pending[sid := sessions[sid]];
        sessions := sessions[sid := Empty(sessions[sid].name)];
        todo := todo - {sid};
      }
    }

    method WriteAll(ghost before: Cache, pending: map<string, Session>)
      requires ValidCache(before) && pending == before.sessions && docs == before.docs
      modifies this`docs
      ensures docs == Through(before)
    {
      hide *;
      var todo := pending.Keys;
      PartlyNone(before);
      while todo != {}
        invariant todo <= pending.Keys && docs == Partly(before, todo)
      {
        var sid :| sid in todo;
        var s := pending[sid];
        PartlyStep(before, todo, sid);
        UpdateFields(s.name, HeldEntries(s));
        todo := todo - {sid};
      }
      PartlyAll(before);
    }
  }

  /** The store when the sessions in `todo` are still to be written. */
  ghost function Partly(c: Cache, todo: set<string>): map<string, Fields> {
    map n | n in c.docs ::
      if exists sid :: sid in todo && sid in c.sessions && c.sessions[sid].name == n then c.docs[n]
      else c.docs[n] + HeldFor(c, n)
  }

  lemma PartlyNone(c: Cache)
    ensures Partly(c, c.sessions.Keys) == c.docs
  {
    hide Held;
    forall n | n in c.docs && !Online(c, n) ensures c.docs[n] + HeldFor(c, n) == c.docs[n] {
      assert c.docs[n] + map[] == c.docs[n];
    }
  }

  lemma PartlyAll(c: Cache)
    ensures Partly(c, {}) == Through(c)
  {
  }

  lemma PartlyStep(c: Cache, todo: set<string>, sid: string)
    requires ValidCache(c) && sid in todo && todo <= c.sessions.Keys
    ensures
      var s := c.sessions[sid];
      var docs := Partly(c, todo);
      s.name in docs && Partly(c, todo - {sid}) == docs[s.name := Written(docs[s.name], HeldEntries(s))]
  {
    hide Held, HeldEntries, Written, Tidy, HeldFor;
    var s := c.sessions[sid];
    HeldForSession(c, sid);
    WriteHeld(c.docs[s.name], s);
    assert Tidy(c.docs[s.name]);
    assert forall o :: o in todo && o != sid ==> o in todo - {sid};
  }
}
