/** Member numbers from the counter of `src/state/world.rs` to the rows of `src/db/sqlite.rs`: an account is given
    its number when it is created or at its first login without one (`src/auth/create.rs`, `src/auth/login.rs`), and
    what it stores while online never touches it. */
module AccountNumbers {
  import opened Names
  import opened Numbers
  import opened Options
  import opened JsonPaths
  import opened AccountRows
  import opened AccountTables

  /** The stored rows, the next number, and the accounts with a session. */
  datatype Registry = Registry(rows: Rows, next: int, online: set<string>)

  datatype Op =
    | Create(name: string, doc: Fields)
    | Login(name: string)
    | Logout(name: string)
    | Change(name: string, entries: seq<Entry>)
    | Pull(name: string, source: int)

  /** The number a session of the account would have; 0 stands for none. */
  function NumberOf(row: Row): int {
    if row.memberNumber.Some? then row.memberNumber.value else 0
  }

  /** The document a creation inserts. */
  function Numbered(name: string, doc: Fields, n: int): Fields {
    doc["AccountName" := Str(Upper(name))]["MemberNumber" := Num(n)]
  }

  predicate MayInsert(rows: Rows, doc: Fields) {
    var name := StrAt(doc, "AccountName");
    && name.Some? && StrAt(doc, "Password").Some? && Upper(name.value) !in rows
    && !NumberTaken(rows, I64At(doc, "MemberNumber"), Upper(name.value))
  }

  function OrSame(r: Result<Rows>, rows: Rows): Rows {
    if r.Ok? then r.value else rows
  }

  /** The set that a login stores for an account without a number. */
  function NumberSet(n: int): seq<Entry> {
    [("MemberNumber", Num(n))]
  }

  function Step(t: Registry, op: Op): Registry {
    match op
    case Create(name, doc) =>
      var doc' := Numbered(name, doc, t.next);
      if MayInsert(t.rows, doc')
      then Registry(t.rows[Upper(StrAt(doc', "AccountName").value) := RowOf(doc')], t.next + 1,
                    t.online + {Upper(StrAt(doc', "AccountName").value)})
      else t.(next := t.next + 1)
    case Login(name) =>
      if Upper(name) !in t.rows then t
      else if NumberOf(t.rows[Upper(name)]) == 0
      then Registry(OrSame(UpdateRows(t.rows, name, NumberSet(t.next)), t.rows), t.next + 1, t.online + {Upper(name)})
      else t.(online := t.online + {Upper(name)})
    case Logout(name) => t.(online := t.online - {Upper(name)})
    case Change(name, entries) =>
      if Upper(name) in t.online then t.(rows := OrSame(UpdateRows(t.rows, name, entries), t.rows)) else t
    case Pull(name, source) =>
      if Upper(name) in t.rows
      then t.(rows := OrSame(Store(t.rows, RowOf(Pulled(Document(t.rows[Upper(name)]), source))), t.rows))
      else t
  }

  function Run(t: Registry, ops: seq<Op>): Registry
    decreases |ops|
  {
    if ops == [] then t else Step(Run(t, ops[..|ops| - 1]), ops[|ops| - 1])
  }

  /** Rows are valid, no number has reached the counter, and whoever is online has a number. */
  ghost predicate AllNumbered(t: Registry) {
    && ValidRows(t.rows) && t.next >= 1
    && (forall k :: k in t.rows ==> NumberOf(t.rows[k]) < t.next)
    && forall k :: k in t.online ==> k in t.rows && NumberOf(t.rows[k]) != 0
  }

  /** Dotted keys aside, nothing stored for a session names the account, its number or its password: a client's
      update loses those keys, and the server's own sets have none. */
  predicate Proper(op: Op) {
    op.Change? ==>
      "Password" !in Keys(op.entries) && "MemberNumber" !in Keys(op.entries) && "AccountName" !in Keys(op.entries)
  }

  /** Numbers, once there, stay. */
  ghost predicate NumbersKept(rows: Rows, rows': Rows) {
    forall k :: k in rows && NumberOf(rows[k]) != 0 ==> k in rows' && NumberOf(rows'[k]) == NumberOf(rows[k])
  }

  /** An update of an account online is always stored. */
  predicate GoesThrough(t: Registry, op: Op) {
    op.Change? && Upper(op.name) in t.online ==> UpdateRows(t.rows, op.name, op.entries).Ok?
  }

  lemma NextIsFree(t: Registry, key: string)
    requires AllNumbered(t)
    ensures !NumberTaken(t.rows, Some(t.next), key)
  {
    hide ValidRows;
  }

  lemma LoginKeepsNumbers(t: Registry, name: string)
    requires AllNumbered(t) && t.next <= I64_MAX
    ensures AllNumbered(Step(t, Login(name))) && NumbersKept(t.rows, Step(t, Login(name)).rows)
    ensures Upper(name) in t.rows && NumberOf(t.rows[Upper(name)]) == 0 ==>
      Upper(name) in Step(t, Login(name)).rows && NumberOf(Step(t, Login(name)).rows[Upper(name)]) == t.next
  {
    hide Upper, UpdateRows, ValidRows;
    if Upper(name) in t.rows && NumberOf(t.rows[Upper(name)]) == 0 {
      NextIsFree(t, Upper(name));
      NumberingStores(t.rows, name, t.next);
    }
  }

  lemma ChangeKeepsNumbers(t: Registry, name: string, entries: seq<Entry>)
    requires AllNumbered(t) && Proper(Change(name, entries))
    ensures AllNumbered(Step(t, Change(name, entries))) && NumbersKept(t.rows, Step(t, Change(name, entries)).rows)
    ensures GoesThrough(t, Change(name, entries))
  {
    hide Upper, Updated, Document, ValidRows;
    if Upper(name) in t.online && entries != [] {
      hide UpdateRows;
      ClientUpdateSucceeds(t.rows, name, entries);
      UpdateRefines(t.rows, name, entries);
      UpdateOfRow(t.rows, name, entries);
    }
  }

  lemma CreateKeepsNumbers(t: Registry, name: string, doc: Fields)
    requires AllNumbered(t) && t.next <= I64_MAX
    ensures AllNumbered(Step(t, Create(name, doc))) && NumbersKept(t.rows, Step(t, Create(name, doc)).rows)
  {
    hide Upper, Document, ValidRows, Normal;
    var doc' := Numbered(name, doc, t.next);
    assert I64At(doc', "MemberNumber") == Some(t.next);
    if MayInsert(t.rows, doc') {
      InsertRefines(t.rows, doc');
    }
  }

  lemma PullKeepsNumbers(t: Registry, name: string, source: int)
    requires AllNumbered(t)
    ensures AllNumbered(Step(t, Pull(name, source))) && NumbersKept(t.rows, Step(t, Pull(name, source)).rows)
  {
    hide Upper, Document, ValidRows, Tidy, Pulled, PulledFrom;
    if Upper(name) in t.rows {
      PullStores(t.rows, Upper(name), source);
      PullKeepsNumber(t.rows, Upper(name), source);
    }
  }

  /** A pull leaves its row with the number it had, and the other rows alone. */
  lemma PullKeepsNumber(rows: Rows, key: string, source: int)
    requires ValidRows(rows) && key in rows
    ensures
      var r := Store(rows, RowOf(Pulled(Document(rows[key]), source)));
      r.Ok? ==> r.value.Keys == rows.Keys && forall k :: k in rows ==> r.value[k].memberNumber == rows[k].memberNumber
  {
    hide Upper, Document, Tidy, Pulled, Normal;
    AgreeingDocument(rows[key]);
    PulledIsTidy(Document(rows[key]), source);
  }

  lemma StepKeepsNumbers(t: Registry, op: Op)
    requires AllNumbered(t) && t.next <= I64_MAX && Proper(op)
    ensures AllNumbered(Step(t, op)) && NumbersKept(t.rows, Step(t, op).rows) && GoesThrough(t, op)
    ensures t.next <= Step(t, op).next <= t.next + 1
  {
    hide Upper, UpdateRows, ValidRows, Store, Document;
    match op
    case Create(name, doc) => CreateKeepsNumbers(t, name, doc);
    case Login(name) => LoginKeepsNumbers(t, name);
    case Logout(name) =>
    case Change(name, entries) => ChangeKeepsNumbers(t, name, entries);
    case Pull(name, source) => PullKeepsNumbers(t, name, source);
  }

  /** Over every run everybody online has a number, numbers never change, and whatever an account online stores,
      dotted keys below its number included, goes through. */
  lemma {:induction false} OnlineUpdatesGoThrough(t: Registry, ops: seq<Op>)
    requires AllNumbered(t) && t.next + |ops| <= I64_MAX && forall i :: 0 <= i < |ops| ==> Proper(ops[i])
    ensures AllNumbered(Run(t, ops)) && NumbersKept(t.rows, Run(t, ops).rows)
    ensures t.next <= Run(t, ops).next <= t.next + |ops|
    ensures forall i :: 0 <= i < |ops| ==> GoesThrough(Run(t, ops[..i]), ops[i])
    decreases |ops|
  {
    hide AllNumbered, NumbersKept, GoesThrough, Proper, Step;
    if ops != [] {
      var n := |ops| - 1;
      var before := ops[..n];
      OnlineUpdatesGoThrough(t, before);
      StepKeepsNumbers(Run(t, before), ops[n]);
      KeptTwice(t.rows, Run(t, before).rows, Run(t, ops).rows);
      forall i | 0 <= i < |ops| ensures GoesThrough(Run(t, ops[..i]), ops[i]) {
        assert i < n ==> before[..i] == ops[..i] && before[i] == ops[i];
      }
    } else {
      NothingLost(t.rows);
    }
  }

  lemma KeptTwice(a: Rows, b: Rows, c: Rows)
    requires NumbersKept(a, b) && NumbersKept(b, c)
    ensures NumbersKept(a, c)
  {
  }

  lemma NothingLost(rows: Rows)
    ensures NumbersKept(rows, rows)
  {
  }
}
