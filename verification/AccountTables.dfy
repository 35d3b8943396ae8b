/** The account table of `src/db/sqlite.rs`, proved to behave as a map from account names to
    documents. Rows are found by account name whatever its case
    (`COLLATE NOCASE`), or by member number. */
module AccountTables {
  import opened Positions = Lists
  import opened Names
  import opened Numbers
  import opened Options
  import opened JsonPaths
  import opened AccountRows

  type Rows = map<string, Row>

  /** Rows agree with their blobs, sit under their own names, and share no member number. */
  ghost predicate ValidRows(rows: Rows) {
    && (forall k :: k in rows ==> Agrees(rows[k]) && Upper(rows[k].accountName) == k)
    && forall j, k ::
      j in rows && k in rows && rows[j].memberNumber.Some? && rows[j].memberNumber == rows[k].memberNumber
      ==> j == k
  }

  /** What the table means: one document an account. */
  ghost function Documents(rows: Rows): map<string, Fields> {
    map k | k in rows :: Document(rows[k])
  }

  /** The unique index on member numbers refuses a number some other row has. */
  predicate NumberTaken(rows: Rows, number: Option<int>, key: string) {
    number.Some? && exists j :: j in rows && j != key && rows[j].memberNumber == number
  }

  /** Overwrites every column but the name in the row that `row` addresses, if there is one. */
  function Store(rows: Rows, row: Row): Result<Rows> {
    var key := Upper(row.accountName);
    if key !in rows then Ok(rows)
    else if NumberTaken(rows, row.memberNumber, key) then Err("UNIQUE constraint failed")
    else Ok(rows[key := row.(accountName := rows[key].accountName)])
  }

  function UpdateRows(rows: Rows, name: string, entries: seq<Entry>): Result<Rows> {
    if entries == [] || Upper(name) !in rows then Ok(rows)
    else
      var row := UpdateOutcome(Document(rows[Upper(name)]), entries);
      if row.Err? then Err(row.error) else Store(rows, row.value)
  }

  // ----- Removing a partner from a stored list -----

  function MemberOf(entry: Json): Option<int> {
    if entry.Obj? then I64At(entry.fields, "MemberNumber") else None
  }

  function Without(list: seq<Json>, member: int): (r: seq<Json>)
    ensures forall e :: e in r <==> e in list && MemberOf(e) != Some(member)
  {
    if list == [] then []
    else (if MemberOf(list[0]) == Some(member) then [] else [list[0]]) + Without(list[1..], member)
  }

  /** The document after every `Lovership` entry for `source` is dropped. */
  function Pulled(doc: Fields, source: int): Fields {
    if "Lovership" in doc && doc["Lovership"].Arr?
    then doc["Lovership" := Arr(Without(doc["Lovership"].items, source))]
    else doc
  }

  predicate NamesMember(entry: Json, member: int) {
    entry.Obj? && I64At(entry.fields, "MemberNumber") == Some(member)
  }

  /** The list of lovers lost exactly the entries that name the source, the rest being as before and in order; a
      list that is absent or no array stays, and so does every other field. */
  ghost predicate PulledFrom(before: Fields, after: Fields, source: int) {
    if "Lovership" in before && before["Lovership"].Arr? then
      && "Lovership" in after && after["Lovership"].Arr? && after - {"Lovership"} == before - {"Lovership"}
      && var all, left := before["Lovership"].items, after["Lovership"].items;
        exists at :: Ascending(at, |all|) && |at| == |left|
          && (forall k: nat :: k < |all| ==> (k in at <==> !NamesMember(all[k], source)))
          && forall i :: 0 <= i < |at| ==> left[i] == all[at[i]]
    else after == before
  }

  lemma PulledIsFrom(doc: Fields, source: int)
    ensures PulledFrom(doc, Pulled(doc, source), source)
  {
    if "Lovership" in doc && doc["Lovership"].Arr? {
      var at := WithoutKeeps(doc["Lovership"].items, source);
    }
  }

  lemma {:induction false} WithoutKeeps(list: seq<Json>, member: int) returns (at: seq<nat>)
    ensures Ascending(at, |list|) && |Without(list, member)| == |at|
    ensures forall k: nat :: k < |list| ==> (k in at <==> !NamesMember(list[k], member))
    ensures forall i :: 0 <= i < |at| ==> Without(list, member)[i] == list[at[i]]
  {
    hide NamesMember, Without, MemberOf, Ascending;
    at := [];
    if list != [] {
      var n := |list| - 1;
      var before := WithoutKeeps(list[..n], member);
      AscendingSnoc(before, n);
      assert list == list[..n] + [list[n]];
      WithoutSnoc(list[..n], list[n], member);
      at := if NamesMember(list[n], member) then before else before + [n];
      forall k: nat | k < |list| ensures k in at <==> !NamesMember(list[k], member) {
        assert k < n ==> list[..n][k] == list[k];
      }
    } else {
      NoneAscending();
      WithoutNothing(member);
    }
  }

  lemma WithoutNothing(member: int)
    ensures Without([], member) == []
  {
  }

  lemma {:induction false} WithoutSnoc(list: seq<Json>, entry: Json, member: int)
    ensures Without(list + [entry], member) ==
            Without(list, member) + if NamesMember(entry, member) then [] else [entry]
  {
    if list != [] {
      assert (list + [entry])[1..] == list[1..] + [entry];
      WithoutSnoc(list[1..], entry, member);
    }
  }

  class AccountTable {
    var rows: Rows

    constructor ()
      ensures rows == map[] && ValidRows(rows)
    {
      rows := map[];
    }

    method Find(name: string) returns (doc: Option<Fields>)
      ensures doc == if Upper(name) in rows then Some(Documents(rows)[Upper(name)]) else None
    {
      if Upper(name) !in rows {
        return None;
      }
      var d := RowToJson(rows[Upper(name)]);
      return Some(d);
    }

    /** The key of the row with a member number. */
    method Locate(member: int) returns (key: Option<string>)
      ensures key.Some? ==> key.value in rows && rows[key.value].memberNumber == Some(member)
      ensures key.None? ==> forall k :: k in rows ==> rows[k].memberNumber != Some(member)
    {
      var todo := rows.Keys;
      while todo != {}
        invariant todo <= rows.Keys
        invariant forall k :: k in rows && k !in todo ==> rows[k].memberNumber != Some(member)
      {
        var k :| k in todo;
        if rows[k].memberNumber == Some(member) {
          return Some(k);
        }
        todo := todo - {k};
      }
      return None;
    }

    method Write(row: Row) returns (r: Result<()>)
      modifies this
      ensures r.Ok? <==> Store(old(rows), row).Ok?
      ensures rows == if r.Ok? then Store(old(rows), row).value else old(rows)
    {
      var key := Upper(row.accountName);
      if key !in rows {
        return Ok(());
      }
      if row.memberNumber.Some? {
        var todo := rows.Keys - {key};
        while todo != {}
          invariant todo <= rows.Keys - {key} && rows == old(rows)
          invariant forall j :: j in rows && j != key && j !in todo ==>
            rows[j].memberNumber != row.memberNumber
        {
          var j :| j in todo;
          if rows[j].memberNumber == row.memberNumber {
            return Err("UNIQUE constraint failed");
          }
          todo := todo - {j};
        }
      }
      rows := rows[key := row.(accountName := rows[key].accountName)];
      return Ok(());
    }

    method InsertAccount(doc: Fields) returns (r: Result<()>)
      modifies this
      ensures
        var name := StrAt(doc, "AccountName");
        r.Ok? <==>
          name.Some? && StrAt(doc, "Password").Some? && Upper(name.value) !in old(rows)
          && !NumberTaken(old(rows), I64At(doc, "MemberNumber"), Upper(name.value))
      ensures r.Ok? ==> rows == old(rows)[Upper(StrAt(doc, "AccountName").value) := RowOf(doc)]
      ensures r.Err? ==> rows == old(rows)
    {
      var name := StrAt(doc, "AccountName");
      if name.None? || StrAt(doc, "Password").None? {
        return Err("AccountName and Password required");
      }
      var row := RowOf(doc);
      if Upper(name.value) in rows {
        return Err("UNIQUE constraint failed");
      }
      if row.memberNumber.Some? {
        var taken := Locate(row.memberNumber.value);
        if taken.Some? {
          return Err("UNIQUE constraint failed");
        }
      }
      rows := rows[Upper(name.value) := row];
      return Ok(());
    }

    method UpdateFields(name: string, entries: seq<Entry>) returns (r: Result<()>)
      modifies this
      ensures r.Ok? <==> UpdateRows(old(rows), name, entries).Ok?
      ensures rows == if r.Ok? then UpdateRows(old(rows), name, entries).value else old(rows)
    {
      if entries == [] || Upper(name) !in rows {
        return Ok(());
      }
      var outcome := MergeRowWithSet(rows[Upper(name)], entries);
      if outcome.Err? {
        return Err(outcome.error);
      }
      r := Write(outcome.value);
    }

    /** Drops the entries for `source` from the stored list of the account numbered `target`. */
    method PullLovershipMember(target: int, source: int) returns (r: Result<()>)
      requires ValidRows(rows)
      modifies this
      ensures r.Ok? && ValidRows(rows)
      ensures forall k :: k in old(rows) && old(rows)[k].memberNumber == Some(target) ==>
        && Documents(rows) == Documents(old(rows))[k := Pulled(Documents(old(rows))[k], source)]
        && PulledFrom(Documents(old(rows))[k], Documents(rows)[k], source)
      ensures (forall k :: k in old(rows) ==> old(rows)[k].memberNumber != Some(target)) ==> rows == old(rows)
    {
      var key := Locate(target);
      if key.None? {
        return Ok(());
      }
      ghost var k := key.value;
      var doc := RowToJson(rows[key.value]);
      if "Lovership" in doc && doc["Lovership"].Arr? {
        doc := doc["Lovership" := Arr(Without(doc["Lovership"].items, source))];
      }
      PullStores(rows, k, source);
      PulledIsFrom(Documents(rows)[k], source);
      r := Write(RowOf(doc));
    }
  }

  // ----- The table as a map of documents -----

  lemma AgreeingDocument(row: Row)
    requires Agrees(row)
    ensures Document(row) == Normal(row.blob.fields) && Tidy(Document(row))
    ensures StrAt(Document(row), "AccountName") == Some(row.accountName)
    ensures I64At(Document(row), "MemberNumber") == row.memberNumber
    ensures "Email" in Document(row)
  {
    hide Document, Tidy;
    var blob := row.blob.fields;
    NormalIsTidy(blob);
    NormalColumn(blob, AccountName);
    NormalColumn(blob, MemberNumber);
    NormalColumn(blob, Email);
    assert KeyOf(AccountName) == "AccountName" && KeyOf(MemberNumber) == "MemberNumber" && KeyOf(Email) == "Email";
    assert row == RowOf(blob);
  }

  lemma DocumentsOfUpdate(rows: Rows, key: string, row: Row)
    ensures Documents(rows[key := row]) == Documents(rows)[key := Document(row)]
  {
    hide Document;
  }

  /** Storing a document under the name it carries replaces that document only, by what will be read back. */
  lemma StoreReplaces(rows: Rows, key: string, doc: Fields)
    requires ValidRows(rows) && key in rows
    requires StrAt(doc, "AccountName") == Some(rows[key].accountName)
    ensures Store(rows, RowOf(doc)).Ok? <==> !NumberTaken(rows, I64At(doc, "MemberNumber"), key)
    ensures Store(rows, RowOf(doc)).Ok? ==>
      var rows' := Store(rows, RowOf(doc)).value;
      ValidRows(rows') && Documents(rows') == Documents(rows)[key := Normal(doc)]
  {
    hide Document, Upper;
    var row := RowOf(doc);
    assert row.(accountName := rows[key].accountName) == row;
    DocumentsOfUpdate(rows, key, row);
  }

  /** An update of a row is an update of its document, whatever dotted keys the set holds: protected fields
      it does not name and that read as their column's type stay, everything else merges, and what is read
      back is that in its columns' types. It fails only for a lost name, an emptied password or a number
      already taken. */
  lemma UpdateRefines(rows: Rows, name: string, entries: seq<Entry>)
    requires ValidRows(rows) && Upper(name) in rows && entries != [] && NameSafe(Keys(entries))
    ensures
      var key, r := Upper(name), UpdateRows(rows, name, entries);
      var doc, doc' := Documents(rows)[key], Updated(Documents(rows)[key], entries);
      && (r.Ok? <==> StrAt(doc', "AccountName").Some?
                     && (PasswordFromJson(doc') == "" ==> PasswordFromJson(doc) == "")
                     && !NumberTaken(rows, I64At(doc', "MemberNumber"), key))
      && (r.Ok? ==> ValidRows(r.value) && Documents(r.value) == Documents(rows)[key := Normal(doc')])
  {
    hide Updated, Document, Upper, NameSafe, Normal, Store;
    var key := Upper(name);
    AgreeingDocument(rows[key]);
    var doc := Document(rows[key]);
    var doc' := Updated(doc, entries);
    SafeKeepsName(doc, entries);
    if UpdateOutcome(doc, entries).Ok? {
      StoreReplaces(rows, key, doc');
    }
  }

  /** Without the password, the number and the account name among its keys, as a client's update must be, a
      set goes through unless it brings a number that is taken. It brings none to an account that has a
      number, as all accounts online have, and none when no dotted key writes there. */
  lemma ClientUpdateSucceeds(rows: Rows, name: string, entries: seq<Entry>)
    requires ValidRows(rows) && Upper(name) in rows && entries != []
    requires "Password" !in Keys(entries) && "MemberNumber" !in Keys(entries) && "AccountName" !in Keys(entries)
    ensures
      var key := Upper(name);
      var number := I64At(Updated(Documents(rows)[key], entries), "MemberNumber");
      && (UpdateRows(rows, name, entries).Ok? <==> !NumberTaken(rows, number, key))
      && (rows[key].memberNumber.Some? || !DottedInto(Keys(entries), "MemberNumber") ==>
            number == rows[key].memberNumber && UpdateRows(rows, name, entries).Ok?)
  {
    hide Updated, Document, Upper, UpdateRows;
    var key := Upper(name);
    var doc := Document(rows[key]);
    AgreeingDocument(rows[key]);
    CredentialsStay(doc, entries);
    UpdateRefines(rows, name, entries);
    OwnNumberIsFree(rows, key);
  }

  lemma OwnNumberIsFree(rows: Rows, key: string)
    requires ValidRows(rows) && key in rows
    ensures !NumberTaken(rows, rows[key].memberNumber, key)
  {
    hide Agrees, Upper;
  }

  lemma CredentialsStay(doc: Fields, entries: seq<Entry>)
    requires "Password" !in Keys(entries) && "MemberNumber" !in Keys(entries) && "AccountName" !in Keys(entries)
    ensures PasswordFromJson(Updated(doc, entries)) == PasswordFromJson(doc)
    ensures StrAt(doc, "AccountName").Some? ==> StrAt(Updated(doc, entries), "AccountName") == StrAt(doc, "AccountName")
    ensures I64At(doc, "MemberNumber").Some? || !DottedInto(Keys(entries), "MemberNumber") ==>
      I64At(Updated(doc, entries), "MemberNumber") == I64At(doc, "MemberNumber")
  {
    hide Merge, Updated;
    NameAndPasswordStay(doc, entries);
    NumberStays(doc, entries);
  }

  lemma NameAndPasswordStay(doc: Fields, entries: seq<Entry>)
    requires "Password" !in Keys(entries) && "AccountName" !in Keys(entries)
    ensures PasswordFromJson(Updated(doc, entries)) == PasswordFromJson(doc)
    ensures StrAt(doc, "AccountName").Some? ==> StrAt(Updated(doc, entries), "AccountName") == StrAt(doc, "AccountName")
  {
    hide Merge;
    assert KeyOf(Password) == "Password" && KeyOf(AccountName) == "AccountName";
    ColumnOfKey(Password);
    ColumnOfKey(AccountName);
  }

  lemma NumberStays(doc: Fields, entries: seq<Entry>)
    requires "MemberNumber" !in Keys(entries)
    ensures I64At(doc, "MemberNumber").Some? || !DottedInto(Keys(entries), "MemberNumber") ==>
      I64At(Updated(doc, entries), "MemberNumber") == I64At(doc, "MemberNumber")
  {
    hide Merge;
    assert KeyOf(MemberNumber) == "MemberNumber";
    ColumnOfKey(MemberNumber);
    if I64At(doc, "MemberNumber").None? && !DottedInto(Keys(entries), "MemberNumber") {
      forall e | e in entries ensures Target(e.0) == [] || Target(e.0)[0] != "MemberNumber" {
        assert e.0 in Keys(entries);
      }
      MergeAside(doc, entries, "MemberNumber");
    }
  }

  /** The table alone lets it happen: a set that sends an account without a number one that is taken is lost.
      No client is online without a number; see `AccountNumbers`. */
  lemma TakenNumberFails(rows: Rows, name: string, other: string, n: int)
    requires ValidRows(rows) && Upper(name) in rows && other in rows && other != Upper(name) && IsI64(n)
    requires rows[other].memberNumber == Some(n) && "MemberNumber" !in Documents(rows)[Upper(name)]
    ensures UpdateRows(rows, name, [(".MemberNumber", Num(n))]).Err?
  {
    hide Updated, Document, Upper, UpdateRows, ValidRows, Tidy;
    var entries: seq<Entry> := [(".MemberNumber", Num(n))];
    NumberSent(Documents(rows)[Upper(name)], n);
    ClientUpdateSucceeds(rows, name, entries);
    assert NumberTaken(rows, Some(n), Upper(name));
  }

  lemma NumberSent(doc: Fields, n: int)
    requires "MemberNumber" !in doc && IsI64(n)
    ensures
      var entries := [(".MemberNumber", Num(n))];
      Keys(entries) == {".MemberNumber"} && I64At(Updated(doc, entries), "MemberNumber") == Some(n)
  {
    hide Updated, Target;
    var entries: seq<Entry> := [(".MemberNumber", Num(n))];
    assert KeyOf(MemberNumber) == "MemberNumber" && "." + KeyOf(MemberNumber) == ".MemberNumber";
    DottedCreates(doc, MemberNumber, Num(n));
  }

  /** A new account joins the map with the document it was created with, as it will be read back. */
  lemma InsertRefines(rows: Rows, doc: Fields)
    requires ValidRows(rows) && StrAt(doc, "AccountName").Some?
    requires Upper(StrAt(doc, "AccountName").value) !in rows
    requires !NumberTaken(rows, I64At(doc, "MemberNumber"), Upper(StrAt(doc, "AccountName").value))
    ensures
      var key := Upper(StrAt(doc, "AccountName").value);
      var rows' := rows[key := RowOf(doc)];
      ValidRows(rows') && Documents(rows') == Documents(rows)[key := Normal(doc)]
    ensures WellTyped(doc) ==> Normal(doc) == WithEmail(doc)
  {
    hide Document, Upper, WithEmail, WellTyped;
    var key := Upper(StrAt(doc, "AccountName").value);
    DocumentsOfUpdate(rows, key, RowOf(doc));
    if WellTyped(doc) {
      ReadBackRow(doc);
    }
  }

  /** Dropping stored partners keeps the row in agreement and changes nothing else. */
  lemma PullStores(rows: Rows, key: string, source: int)
    requires ValidRows(rows) && key in rows
    ensures
      var r := Store(rows, RowOf(Pulled(Document(rows[key]), source)));
      && r.Ok? && ValidRows(r.value)
      && Documents(r.value) == Documents(rows)[key := Pulled(Document(rows[key]), source)]
      && PulledFrom(Documents(rows)[key], Documents(r.value)[key], source)
  {
    PulledIsFrom(Document(rows[key]), source);
    hide Document, Upper, Normal, Tidy, Pulled;
    var doc := Document(rows[key]);
    AgreeingDocument(rows[key]);
    PulledIsTidy(doc, source);
    OwnNumberIsFree(rows, key);
    StoreReplaces(rows, key, Pulled(doc, source));
    NormalOfTidy(Pulled(doc, source));
  }

  lemma NormalOfTidy(doc: Fields)
    requires Tidy(doc)
    ensures Normal(doc) == doc
  {
  }

  lemma PulledIsTidy(doc: Fields, source: int)
    requires Tidy(doc)
    ensures Tidy(Pulled(doc, source))
    ensures StrAt(Pulled(doc, source), "AccountName") == StrAt(doc, "AccountName")
    ensures I64At(Pulled(doc, source), "MemberNumber") == I64At(doc, "MemberNumber")
  {
    hide Tidy;
    TidyIff(doc);
    TidyIff(Pulled(doc, source));
    assert forall c: Column :: TypedAt(Pulled(doc, source), c) == TypedAt(doc, c);
  }

  /** An update leaves its own row with the number its document gets, and all other rows alone. */
  lemma UpdateOfRow(rows: Rows, name: string, entries: seq<Entry>)
    requires ValidRows(rows) && Upper(name) in rows && entries != [] && NameSafe(Keys(entries))
    requires UpdateRows(rows, name, entries).Ok?
    ensures
      var rows' := UpdateRows(rows, name, entries).value;
      && rows'.Keys == rows.Keys && (forall k :: k in rows && k != Upper(name) ==> rows'[k] == rows[k])
      && rows'[Upper(name)].memberNumber == I64At(Updated(Documents(rows)[Upper(name)], entries), "MemberNumber")
  {
    hide NameSafe, Updated, Document, Upper, Tidy, Normal;
    var doc := Document(rows[Upper(name)]);
    AgreeingDocument(rows[Upper(name)]);
    SafeKeepsName(doc, entries);
    assert UpdateOutcome(doc, entries).value == RowOf(Updated(doc, entries));
  }

  /** The number that a login stores for an account is the account's from then on. */
  lemma NumberingStores(rows: Rows, name: string, n: int)
    requires ValidRows(rows) && Upper(name) in rows && IsI64(n) && !NumberTaken(rows, Some(n), Upper(name))
    ensures
      var r := UpdateRows(rows, name, [("MemberNumber", Num(n))]);
      && r.Ok? && ValidRows(r.value) && r.value.Keys == rows.Keys && r.value[Upper(name)].memberNumber == Some(n)
      && forall k :: k in rows && k != Upper(name) ==> r.value[k] == rows[k]
  {
    hide Updated, Document, Upper, UpdateRows, ValidRows, Tidy;
    var entries: seq<Entry> := [("MemberNumber", Num(n))];
    assert Keys(entries) == {"MemberNumber"};
    var doc := Documents(rows)[Upper(name)];
    RowsAgree(rows, Upper(name));
    AgreeingDocument(rows[Upper(name)]);
    NumberGiven(doc, n);
    NameAndPasswordStay(doc, entries);
    UpdateRefines(rows, name, entries);
    UpdateOfRow(rows, name, entries);
  }

  lemma RowsAgree(rows: Rows, key: string)
    requires ValidRows(rows) && key in rows
    ensures Agrees(rows[key])
  {
    hide Agrees, Upper;
  }

  lemma NumberGiven(doc: Fields, n: int)
    requires IsI64(n)
    ensures I64At(Updated(doc, [("MemberNumber", Num(n))]), "MemberNumber") == Some(n)
  {
    hide Updated, Target;
    var entries: seq<Entry> := [("MemberNumber", Num(n))];
    assert KeyOf(MemberNumber) == "MemberNumber" && Keys(entries) == {"MemberNumber"};
    assert '.' !in "MemberNumber";
    NamedColumn(doc, entries, MemberNumber, 0);
  }

  // ----- Which rows an update writes -----

  /** No update, whatever its keys, changes the name of any account. */
  lemma NamesNeverChange(rows: Rows, name: string, entries: seq<Entry>)
    requires UpdateRows(rows, name, entries).Ok?
    ensures
      var rows' := UpdateRows(rows, name, entries).value;
      rows'.Keys == rows.Keys && forall k :: k in rows ==> rows'[k].accountName == rows[k].accountName
  {
    hide UpdateOutcome, Document, Upper;
  }

  ghost predicate WritesOwnRowOnly(rows: Rows, name: string, entries: seq<Entry>) {
    UpdateRows(rows, name, entries).Ok? ==>
      forall k :: k in rows && k != Upper(name) ==> UpdateRows(rows, name, entries).value[k] == rows[k]
  }

  /** Exactly the safe key sets never write another account's row, whatever the table and the values. */
  lemma OwnRowIffSafe(keys: set<string>)
    ensures NameSafe(keys) <==> forall rows, name, entries :: ValidRows(rows) && Lists(entries, keys) ==>
        WritesOwnRowOnly(rows, name, entries)
  {
    hide NameSafe, ValidRows, UpdateRows, WritesOwnRowOnly;
    if NameSafe(keys) {
      forall rows, name, entries | ValidRows(rows) && Lists(entries, keys)
        ensures WritesOwnRowOnly(rows, name, entries)
      {
        SafeWritesOwnRow(rows, name, entries);
      }
    } else {
      var rows, name, entries := UnsafeOverwrites(keys);
    }
  }

  lemma SafeWritesOwnRow(rows: Rows, name: string, entries: seq<Entry>)
    requires ValidRows(rows) && NameSafe(Keys(entries))
    ensures WritesOwnRowOnly(rows, name, entries)
  {
    hide NameSafe, Updated, Document;
    if Upper(name) in rows {
      AgreeingDocument(rows[Upper(name)]);
      SafeKeepsName(Document(rows[Upper(name)]), entries);
    }
  }

  /** For any other key set: `A` updates, and the row of `B` is overwritten. */
  lemma UnsafeOverwrites(keys: set<string>) returns (rows: Rows, name: string, entries: seq<Entry>)
    requires !NameSafe(keys)
    ensures ValidRows(rows) && Lists(entries, keys) && !WritesOwnRowOnly(rows, name, entries)
  {
    hide UpdateRows, UpdateOutcome, ValidRows, Document, RowOf, Upper;
    var k :| k in keys && '.' in k && Target(k) == ["AccountName"];
    assert "AccountName" in keys - {k};
    var others := ListKeys(keys - {k});
    entries := others + [(k, Str("B"))];
    assert keys - {k} + {k} == keys;
    name := "A";
    rows := TwoAccounts();
    TwoAccountsAreValid();
    MisnamingSucceeds(Document(rows["A"]), others, k);
    MisnamedWritesOther(rows, entries);
  }

  /** The accounts `A` and `B`, of which only `B` has a character name. */
  function TwoAccounts(): Rows {
    map["A" := RowOf(Bare(map["AccountName" := Str("A")])),
        "B" := RowOf(Bare(map["AccountName" := Str("B"), "Name" := Str("Bob")]))]
  }

  function Bare(doc: Fields): Fields {
    doc["Password" := Str("")]["Email" := Str("")]
  }

  lemma TwoAccountsAreValid()
    ensures ValidRows(TwoAccounts()) && TwoAccounts().Keys == {"A", "B"}
    ensures TwoAccounts()["B"].name.Some?
    ensures
      var doc := Document(TwoAccounts()["A"]);
      "Name" !in doc && "MemberNumber" !in doc && PasswordFromJson(doc) == ""
  {
    hide Document, Agrees, RowOf, Bare;
    assert Upper("A") == "A" && Upper("B") == "B";
    var a, b := map["AccountName" := Str("A")], map["AccountName" := Str("B"), "Name" := Str("Bob")];
    BareRow(a, "A");
    BareRow(b, "B");
  }

  lemma BareRow(doc: Fields, name: string)
    requires "AccountName" in doc && doc["AccountName"] == Str(name) && "MemberNumber" !in doc
    ensures
      var row := RowOf(Bare(doc));
      && Agrees(row) && row.accountName == name && row.memberNumber.None?
      && ("Name" in doc && doc["Name"].Str? ==> row.name.Some?)
      && ("Name" !in doc ==> "Name" !in Document(row))
      && "MemberNumber" !in Document(row) && PasswordFromJson(Document(row)) == ""
  {
    hide Document;
    var row := RowOf(Bare(doc));
    DocumentColumn(row, Name);
    DocumentColumn(row, MemberNumber);
    DocumentColumn(row, Password);
  }

  lemma MisnamedWritesOther(rows: Rows, entries: seq<Entry>)
    requires "A" in rows && "B" in rows && rows["B"].name.Some? && entries != []
    requires
      var r := UpdateOutcome(Document(rows["A"]), entries);
      r.Ok? && r.value.accountName == "B" && r.value.name.None? && r.value.memberNumber.None?
    ensures !WritesOwnRowOnly(rows, "A", entries)
  {
    hide UpdateOutcome, Document;
    assert Upper("A") == "A" && Upper("B") == "B";
  }
}
