/** Accounts as SQLite rows (`src/db/sqlite.rs`): seven columns beside a JSON blob that holds the
    same seven fields and everything else. SQL, locking and text encoding are left out: a table is
    a map from folded account names to rows, and a blob is the tree its text parses to. */
module AccountRows {
  import opened Options
  import opened Numbers
  import opened JsonPaths

  datatype Row = Row(
    accountName: string,
    email: Option<string>,
    password: string,
    memberNumber: Option<int>,
    name: Option<string>,
    lastLogin: Option<int>,
    creation: Option<int>,
    blob: Json)

  /** The columns a row has beside the blob: the protected fields of a document. */
  datatype Column = AccountName | Password | MemberNumber | LastLogin | Creation | Name | Email

  function KeyOf(c: Column): string {
    match c
    case AccountName => "AccountName"
    case Password => "Password"
    case MemberNumber => "MemberNumber"
    case LastLogin => "LastLogin"
    case Creation => "Creation"
    case Name => "Name"
    case Email => "Email"
  }

  function ColumnOf(key: string): (c: Option<Column>)
    ensures c.Some? ==> KeyOf(c.value) == key
  {
    if key == "AccountName" then Some(AccountName)
    else if key == "Password" then Some(Password)
    else if key == "MemberNumber" then Some(MemberNumber)
    else if key == "LastLogin" then Some(LastLogin)
    else if key == "Creation" then Some(Creation)
    else if key == "Name" then Some(Name)
    else if key == "Email" then Some(Email)
    else None
  }

  lemma ColumnOfKey(c: Column)
    ensures ColumnOf(KeyOf(c)) == Some(c)
  {
  }

  predicate IsProtected(key: string) {
    ColumnOf(key).Some?
  }

  // ----- Typed readings of a document -----

  function JsonToI64(v: Json): Option<int> {
    match v
    case Num(n) =>
      if IsI64(n) then Some(n)
      else if n < I64_MIN then Some(I64_MIN)       // a float, saturated
      else if n < TWO_64 then Some(n - TWO_64)     // an unsigned number, reinterpreted
      else Some(I64_MAX)
    case Str(s) => ParseI64(s)
    case _ => None
  }

  function StrAt(doc: Fields, key: string): Option<string> {
    if key in doc && doc[key].Str? then Some(doc[key].s) else None
  }

  function I64At(doc: Fields, key: string): Option<int> {
    if key in doc then JsonToI64(doc[key]) else None
  }

  function PasswordFromJson(doc: Fields): string {
    if "Password" in doc && doc["Password"].Str? then doc["Password"].s else ""
  }

  function NumAt(doc: Fields, key: string): Option<Json> {
    var n := I64At(doc, key);
    if n.Some? then Some(Num(n.value)) else None
  }

  function TextAt(doc: Fields, key: string): Option<Json> {
    var s := StrAt(doc, key);
    if s.Some? then Some(Str(s.value)) else None
  }

  /** A protected field in the type its column has, or nothing when the column would be null. */
  function TypedAt(doc: Fields, c: Column): Option<Json> {
    match c
    case Password => Some(Str(PasswordFromJson(doc)))
    case MemberNumber => NumAt(doc, "MemberNumber")
    case LastLogin => NumAt(doc, "LastLogin")
    case Creation => NumAt(doc, "Creation")
    case AccountName => TextAt(doc, "AccountName")
    case Name => TextAt(doc, "Name")
    case Email => TextAt(doc, "Email")
  }

  /** Each protected field that is present has its column's type, and the two required ones are. */
  ghost predicate WellTyped(doc: Fields) {
    && (forall c: Column :: KeyOf(c) in doc ==> TypedAt(doc, c) == Some(doc[KeyOf(c)]))
    && KeyOf(AccountName) in doc && KeyOf(Password) in doc
  }

  // ----- Rows and documents -----

  /** The row that stores a document. */
  function RowOf(doc: Fields): Row {
    Row(if StrAt(doc, "AccountName").Some? then StrAt(doc, "AccountName").value else "",
        StrAt(doc, "Email"), PasswordFromJson(doc), I64At(doc, "MemberNumber"), StrAt(doc, "Name"),
        I64At(doc, "LastLogin"), I64At(doc, "Creation"), Obj(doc))
  }

  function Put(doc: Fields, key: string, v: Option<Json>): Fields {
    if v.Some? then doc[key := v.value] else doc
  }

  function Text(s: Option<string>): Option<Json> {
    if s.Some? then Some(Str(s.value)) else None
  }

  function Number(n: Option<int>): Option<Json> {
    if n.Some? then Some(Num(n.value)) else None
  }

  function WithEmail(doc: Fields): Fields {
    if "Email" in doc then doc else doc["Email" := Str("")]
  }

  /** The document a row stands for: the blob overridden by the columns that are not null, with an
      email in any case. */
  function Document(row: Row): Fields {
    var base := if row.blob.Obj? then row.blob.fields else map[];
    var named := base["AccountName" := Str(row.accountName)];
    var mailed := WithEmail(Put(named, "Email", Text(row.email)));
    var keyed := Put(mailed["Password" := Str(row.password)], "MemberNumber", Number(row.memberNumber));
    var called := Put(keyed, "Name", Text(row.name));
    Put(Put(called, "LastLogin", Number(row.lastLogin)), "Creation", Number(row.creation))
  }

  /** The columns are what the blob reads as. */
  ghost predicate Agrees(row: Row) {
    row.blob.Obj? && row == RowOf(row.blob.fields)
  }

  /** What is read back of a stored document: fields that read as a column's type are of that type. */
  function Normal(doc: Fields): Fields {
    Document(RowOf(doc))
  }

  /** A document that storing leaves as it is. */
  predicate Tidy(doc: Fields) {
    Normal(doc) == doc
  }

  lemma ColumnReads(doc: Fields)
    requires WellTyped(doc)
    ensures doc["AccountName"] == Str(RowOf(doc).accountName)
    ensures doc["Password"] == Str(RowOf(doc).password)
    ensures Text(RowOf(doc).name) == if "Name" in doc then Some(doc["Name"]) else None
    ensures Text(RowOf(doc).email) == if "Email" in doc then Some(doc["Email"]) else None
    ensures Number(RowOf(doc).memberNumber) == if "MemberNumber" in doc then Some(doc["MemberNumber"]) else None
    ensures Number(RowOf(doc).lastLogin) == if "LastLogin" in doc then Some(doc["LastLogin"]) else None
    ensures Number(RowOf(doc).creation) == if "Creation" in doc then Some(doc["Creation"]) else None
  {
    assert KeyOf(Name) in doc ==> TypedAt(doc, Name) == Some(doc["Name"]);
    assert KeyOf(Email) in doc ==> TypedAt(doc, Email) == Some(doc["Email"]);
    assert KeyOf(MemberNumber) in doc ==> TypedAt(doc, MemberNumber) == Some(doc["MemberNumber"]);
    assert KeyOf(LastLogin) in doc ==> TypedAt(doc, LastLogin) == Some(doc["LastLogin"]);
    assert KeyOf(Creation) in doc ==> TypedAt(doc, Creation) == Some(doc["Creation"]);
    assert TypedAt(doc, AccountName) == Some(doc["AccountName"]);
    assert TypedAt(doc, Password) == Some(doc["Password"]);
  }

  /** Storing a document and reading it back loses nothing. */
  lemma ReadBackRow(doc: Fields)
    requires WellTyped(doc)
    ensures Agrees(RowOf(doc)) && Document(RowOf(doc)) == WithEmail(doc)
  {
    ColumnReads(doc);
    var mailed := WithEmail(doc);
    assert doc["AccountName" := doc["AccountName"]] == doc;
    assert mailed["Password" := mailed["Password"]] == mailed;
    PutSame(mailed, "MemberNumber");
    PutSame(mailed, "Name");
    PutSame(mailed, "LastLogin");
    PutSame(mailed, "Creation");
    PutSame(doc, "Email");
  }

  /** What a column holds, as the field it overrides. */
  function ColumnValue(row: Row, c: Column): Option<Json> {
    match c
    case AccountName => Some(Str(row.accountName))
    case Password => Some(Str(row.password))
    case MemberNumber => Number(row.memberNumber)
    case LastLogin => Number(row.lastLogin)
    case Creation => Number(row.creation)
    case Name => Text(row.name)
    case Email => Text(row.email)
  }

  /** A protected field of a row's document is the column's, or else the blob's. */
  lemma DocumentColumn(row: Row, c: Column)
    requires row.blob.Obj?
    ensures ShowsColumn(row, c)
  {
    hide Document, ShowsColumn;
    ShowsName(row);
    ShowsEmail(row);
    ShowsSecrets(row);
    ShowsCalled(row);
    ShowsTimes(row);
  }

  predicate ShowsColumn(row: Row, c: Column)
    requires row.blob.Obj?
  {
    var key, doc, v := KeyOf(c), Document(row), ColumnValue(row, c);
    && (key in doc <==> v.Some? || key in row.blob.fields || c == Email)
    && (key in doc ==>
          doc[key] == if v.Some? then v.value else if key in row.blob.fields then row.blob.fields[key] else Str(""))
  }

  lemma ShowsName(row: Row)
    requires row.blob.Obj?
    ensures ShowsColumn(row, AccountName)
  {
  }

  lemma ShowsEmail(row: Row)
    requires row.blob.Obj?
    ensures ShowsColumn(row, Email)
  {
  }

  lemma ShowsSecrets(row: Row)
    requires row.blob.Obj?
    ensures ShowsColumn(row, Password) && ShowsColumn(row, MemberNumber)
  {
  }

  lemma ShowsCalled(row: Row)
    requires row.blob.Obj?
    ensures ShowsColumn(row, Name)
  {
  }

  lemma ShowsTimes(row: Row)
    requires row.blob.Obj?
    ensures ShowsColumn(row, LastLogin) && ShowsColumn(row, Creation)
  {
  }

  /** Any other field is the blob's. */
  lemma DocumentOther(row: Row, k: string)
    requires row.blob.Obj? && !IsProtected(k)
    ensures k in Document(row) <==> k in row.blob.fields
    ensures k in row.blob.fields ==> Document(row)[k] == row.blob.fields[k]
  {
  }

  /** A protected field as it is read back: typed when it reads as its column's type. */
  lemma NormalColumn(doc: Fields, c: Column)
    ensures
      var key, v := KeyOf(c), TypedAt(doc, c);
      && (key in Normal(doc) <==> v.Some? || key in doc || c == AccountName || c == Email)
      && (v.Some? ==> Normal(doc)[key] == v.value)
      && (v.None? && key in doc && c != AccountName ==> Normal(doc)[key] == doc[key])
      && (v.None? && c == AccountName ==> Normal(doc)[key] == Str(""))
      && (v.None? && c == Email && key !in doc ==> Normal(doc)[key] == Str(""))
  {
    hide Document;
    DocumentColumn(RowOf(doc), c);
  }

  /** Any other field is read back as it is. */
  lemma NormalOther(doc: Fields, k: string)
    requires !IsProtected(k)
    ensures k in Normal(doc) <==> k in doc
    ensures k in doc ==> Normal(doc)[k] == doc[k]
  {
    hide Document;
    DocumentOther(RowOf(doc), k);
  }

  /** Exactly which documents storing leaves as they are. */
  lemma TidyIff(doc: Fields)
    ensures Tidy(doc) <==>
      && TypedAt(doc, AccountName).Some? && KeyOf(Email) in doc
      && forall c: Column :: TypedAt(doc, c).Some? ==> KeyOf(c) in doc && doc[KeyOf(c)] == TypedAt(doc, c).value
  {
    hide Normal, TypedAt, KeyOf;
    forall k ensures IsProtected(k) || ((k in Normal(doc) <==> k in doc) && (k in doc ==> Normal(doc)[k] == doc[k])) {
      if !IsProtected(k) {
        NormalOther(doc, k);
      }
    }
    NormalColumn(doc, AccountName);
    NormalColumn(doc, Email);
    AccountNameTyped(doc);
    if Tidy(doc) {
      forall c: Column | TypedAt(doc, c).Some? ensures KeyOf(c) in doc && doc[KeyOf(c)] == TypedAt(doc, c).value {
        NormalColumn(doc, c);
      }
    } else {
      var k :| k in Normal(doc).Keys + doc.Keys && !(k in Normal(doc) && k in doc && Normal(doc)[k] == doc[k]);
      NormalColumn(doc, ColumnOf(k).value);
    }
  }

  lemma AccountNameTyped(doc: Fields)
    ensures TypedAt(doc, AccountName).None? && KeyOf(AccountName) in doc ==> doc[KeyOf(AccountName)] != Str("")
  {
  }

  /** Whatever is stored, what is read back is left as it is by storing it again. */
  lemma NormalIsTidy(doc: Fields)
    ensures Tidy(Normal(doc))
  {
    hide Normal, TypedAt, KeyOf, Tidy;
    var doc' := Normal(doc);
    TidyIff(doc');
    NormalColumn(doc, AccountName);
    NormalColumn(doc, Email);
    ReadsBackTyped(doc, AccountName);
    forall c: Column | TypedAt(doc', c).Some? ensures KeyOf(c) in doc' && doc'[KeyOf(c)] == TypedAt(doc', c).value {
      NormalColumn(doc, c);
      ReadsBackTyped(doc, c);
    }
  }

  lemma ReadsBackTyped(doc: Fields, c: Column)
    ensures TypedAt(doc, c).Some? ==> TypedAt(Normal(doc), c) == TypedAt(doc, c)
    ensures TypedAt(doc, c).None? && TypedAt(Normal(doc), c).Some? ==>
      KeyOf(c) in Normal(doc) && Normal(doc)[KeyOf(c)] == TypedAt(Normal(doc), c).value
    ensures TypedAt(Normal(doc), AccountName).Some?
  {
    NormalColumn(doc, c);
    NormalColumn(doc, AccountName);
    hide Normal;
  }

  /** Putting back what is there changes nothing. */
  lemma PutSame(doc: Fields, key: string)
    ensures Put(doc, key, if key in doc then Some(doc[key]) else None) == doc
  {
  }

  method RowToJson(row: Row) returns (doc: Fields)
    ensures doc == Document(row)
  {
    doc := if row.blob.Obj? then row.blob.fields else map[];
    doc := doc["AccountName" := Str(row.accountName)];
    if row.email.Some? {
      doc := doc["Email" := Str(row.email.value)];
    } else if "Email" !in doc {
      doc := doc["Email" := Str("")];
    }
    doc := doc["Password" := Str(row.password)];
    if row.memberNumber.Some? {
      doc := doc["MemberNumber" := Num(row.memberNumber.value)];
    }
    if row.name.Some? {
      doc := doc["Name" := Str(row.name.value)];
    }
    if row.lastLogin.Some? {
      doc := doc["LastLogin" := Num(row.lastLogin.value)];
    }
    if row.creation.Some? {
      doc := doc["Creation" := Num(row.creation.value)];
    }
  }

  // ----- One update -----

  /** A protected field that the set does not name literally keeps the value it had. */
  predicate Kept(doc: Fields, entries: seq<Entry>, key: string) {
    IsProtected(key) && key !in Keys(entries) && TypedAt(doc, ColumnOf(key).value).Some?
  }

  /** The reference meaning of an update: set semantics on one document, protected fields aside. */
  function Updated(doc: Fields, entries: seq<Entry>): Fields {
    var merged := Merge(doc, entries);
    map k | k in merged.Keys + (set c: Column :: KeyOf(c)) && (Kept(doc, entries, k) || k in merged) ::
      if Kept(doc, entries, k) then TypedAt(doc, ColumnOf(k).value).value else merged[k]
  }

  /** The row after an update, or why there is none. */
  function UpdateOutcome(doc: Fields, entries: seq<Entry>): Result<Row> {
    var doc' := Updated(doc, entries);
    if StrAt(doc', "AccountName").None? then Err("AccountName missing after merge")
    else if PasswordFromJson(doc') == "" && PasswordFromJson(doc) != "" then
      Err("refused empty password overwrite")
    else Ok(RowOf(doc'))
  }

  /** Some of the protected fields have been put back. */
  ghost predicate Restored(obj: Fields, doc: Fields, entries: seq<Entry>, done: set<Column>) {
    var merged := Merge(doc, entries);
    forall k ::
      var kept := Kept(doc, entries, k) && ColumnOf(k).value in done;
      && (k in obj <==> kept || k in merged)
      && (k in obj ==> obj[k] == if kept then TypedAt(doc, ColumnOf(k).value).value else merged[k])
  }

  /** Puts one protected field back unless the set names it. */
  method RestoreField(obj: Fields, doc: Fields, entries: seq<Entry>, c: Column, ghost done: set<Column>)
    returns (r: Fields)
    requires Restored(obj, doc, entries, done)
    ensures Restored(r, doc, entries, done + {c})
  {
    r := obj;
    ColumnOfKey(c);
    if KeyOf(c) !in Keys(entries) {
      var typed := TypedAt(doc, c);
      if typed.Some? {
        r := r[KeyOf(c) := typed.value];
      }
    }
  }

  lemma RestoredAll(obj: Fields, doc: Fields, entries: seq<Entry>, done: set<Column>)
    requires Restored(obj, doc, entries, done) && forall c: Column :: c in done
    ensures obj == Updated(doc, entries)
  {
  }

  method RestoreProtected(merged: Fields, doc: Fields, entries: seq<Entry>) returns (obj: Fields)
    requires merged == Merge(doc, entries)
    ensures obj == Updated(doc, entries)
  {
    obj := RestoreField(merged, doc, entries, AccountName, {});
    obj := RestoreField(obj, doc, entries, Password, {AccountName});
    obj := RestoreField(obj, doc, entries, MemberNumber, {AccountName} + {Password});
    ghost var done := {AccountName} + {Password} + {MemberNumber};
    obj := RestoreField(obj, doc, entries, LastLogin, done);
    obj := RestoreField(obj, doc, entries, Creation, done + {LastLogin});
    obj := RestoreField(obj, doc, entries, Name, done + {LastLogin} + {Creation});
    done := done + {LastLogin} + {Creation} + {Name};
    obj := RestoreField(obj, doc, entries, Email, done);
    done := done + {Email};
    forall c: Column ensures c in done {
      match c
      case AccountName | Password | MemberNumber | LastLogin =>
      case Creation | Name | Email =>
    }
    RestoredAll(obj, doc, entries, done);
  }

  /** Reads the row, merges the set, puts back the protected fields it does not name, and reads the
      columns off the result. */
  method MergeRowWithSet(row: Row, entries: seq<Entry>) returns (r: Result<Row>)
    ensures r == UpdateOutcome(Document(row), entries)
  {
    var doc := RowToJson(row);
    var passwordCol := PasswordFromJson(doc);
    var obj := MergeSetIntoObject(doc, entries);
    obj := RestoreProtected(obj, doc, entries);
    if StrAt(obj, "AccountName").None? {
      return Err("AccountName missing after merge");
    }
    var next := RowOf(obj);
    if next.password == "" && passwordCol != "" {
      return Err("refused empty password overwrite");
    }
    return Ok(next);
  }

  // ----- What an update keeps -----

  predicate ColumnTyped(c: Column, v: Json) {
    match c
    case MemberNumber | LastLogin | Creation => v.Num? && IsI64(v.n)
    case AccountName | Password | Name | Email => v.Str?
  }

  lemma TypedIffColumnTyped(doc: Fields, c: Column)
    requires KeyOf(c) in doc
    ensures TypedAt(doc, c) == Some(doc[KeyOf(c)]) <==> ColumnTyped(c, doc[KeyOf(c)])
  {
  }

  /** Some dotted key writes at or below a top-level field. */
  ghost predicate DottedInto(keys: set<string>, field: string) {
    exists k :: k in keys && '.' in k && Target(k) != [] && Target(k)[0] == field
  }

  /** Sets that need no look at the merge: every protected field they name has its column's type and no
      dotted key beside it, and no dotted key reaches a protected field the document lacks. The server's
      own sets are such; a client's dotted keys need not be. */
  ghost predicate Regular(doc: Fields, entries: seq<Entry>) {
    && DistinctKeys(entries)
    && "AccountName" !in Keys(entries)
    && (forall e :: e in entries && IsProtected(e.0) ==>
      ColumnTyped(ColumnOf(e.0).value, e.1) && !DottedInto(Keys(entries), e.0))
    && forall c: Column :: KeyOf(c) !in doc ==> !DottedInto(Keys(entries), KeyOf(c))
  }

  lemma WriteAside(root: Fields, path: Path, v: Json, k: string)
    requires path == [] || path[0] != k
    ensures k in Write(root, path, v) <==> k in root
    ensures k in root ==> Write(root, path, v)[k] == root[k]
  {
  }

  /** A field named literally, with no dotted key beside it, takes the value given. */
  lemma {:induction false} MergeLiteral(doc: Fields, entries: seq<Entry>, i: nat)
    requires DistinctKeys(entries) && i < |entries|
    requires Target(entries[i].0) == [entries[i].0]
    requires forall j :: 0 <= j < |entries| && j != i ==>
      Target(entries[j].0) == [] || Target(entries[j].0)[0] != entries[i].0
    ensures entries[i].0 in Merge(doc, entries) && Merge(doc, entries)[entries[i].0] == entries[i].1
    decreases |entries|
  {
    var n := |entries| - 1;
    if i < n {
      MergeLiteral(doc, entries[..n], i);
      WriteAside(Merge(doc, entries[..n]), Target(entries[n].0), entries[n].1, entries[i].0);
    }
  }

  /** A field no key writes at or below is left alone. */
  lemma {:induction false} MergeAside(doc: Fields, entries: seq<Entry>, k: string)
    requires forall e :: e in entries ==> Target(e.0) == [] || Target(e.0)[0] != k
    ensures k in Merge(doc, entries) <==> k in doc
    ensures k in doc ==> Merge(doc, entries)[k] == doc[k]
    decreases |entries|
  {
    if entries != [] {
      var n := |entries| - 1;
      MergeAside(doc, entries[..n], k);
      WriteAside(Merge(doc, entries[..n]), Target(entries[n].0), entries[n].1, k);
    }
  }

  lemma ProtectedHasNoDot(c: Column)
    ensures '.' !in KeyOf(c) && KeyOf(c) != ""
  {
  }

  /** A field that is there, or that some key writes at or below, is there after the merge. */
  lemma {:induction false} MergePresent(doc: Fields, entries: seq<Entry>, k: string)
    requires k in doc || exists e :: e in entries && Target(e.0) != [] && Target(e.0)[0] == k
    ensures k in Merge(doc, entries)
    decreases |entries|
  {
    if entries != [] {
      var n := |entries| - 1;
      assert entries == entries[..n] + [entries[n]];
      if Target(entries[n].0) == [] || Target(entries[n].0)[0] != k {
        MergePresent(doc, entries[..n], k);
        WriteAside(Merge(doc, entries[..n]), Target(entries[n].0), entries[n].1, k);
      }
    }
  }

  /** A protected field the set names, or the document lacks, is after the update what the merge made it. */
  lemma NotKept(doc: Fields, entries: seq<Entry>, c: Column)
    requires KeyOf(c) in Keys(entries) || (KeyOf(c) !in doc && c != Password)
    ensures KeyOf(c) in Updated(doc, entries) <==> KeyOf(c) in Merge(doc, entries)
    ensures KeyOf(c) in Merge(doc, entries) ==> Updated(doc, entries)[KeyOf(c)] == Merge(doc, entries)[KeyOf(c)]
  {
    hide Merge;
    ColumnOfKey(c);
  }

  /** An update keeps a document well typed exactly when what the merge leaves in the protected fields that
      the set names or the document lacks has their columns' types. */
  lemma UpdatedWellTyped(doc: Fields, entries: seq<Entry>)
    requires WellTyped(doc)
    ensures WellTyped(Updated(doc, entries)) <==>
      forall c: Column ::
        (KeyOf(c) in Keys(entries) || KeyOf(c) !in doc) && KeyOf(c) in Merge(doc, entries) ==>
          ColumnTyped(c, Merge(doc, entries)[KeyOf(c)])
  {
    hide Merge, Updated, KeyOf, TypedAt, ColumnTyped;
    var doc' := Updated(doc, entries);
    forall c: Column
      ensures KeyOf(c) in doc ==> KeyOf(c) in doc'
      ensures KeyOf(c) in doc' ==>
        (TypedAt(doc', c) == Some(doc'[KeyOf(c)]) <==>
         ((KeyOf(c) in Keys(entries) || KeyOf(c) !in doc) && KeyOf(c) in Merge(doc, entries) ==>
            ColumnTyped(c, Merge(doc, entries)[KeyOf(c)])))
      ensures KeyOf(c) in Keys(entries) || KeyOf(c) !in doc ==> (KeyOf(c) in doc' <==> KeyOf(c) in Merge(doc, entries))
    {
      ColumnAfter(doc, entries, c);
    }
  }

  lemma ColumnAfter(doc: Fields, entries: seq<Entry>, c: Column)
    requires WellTyped(doc)
    ensures
      var doc' := Updated(doc, entries);
      && (KeyOf(c) in doc ==> KeyOf(c) in doc')
      && (KeyOf(c) in Keys(entries) || KeyOf(c) !in doc ==> (KeyOf(c) in doc' <==> KeyOf(c) in Merge(doc, entries)))
      && (KeyOf(c) in doc' ==>
            (TypedAt(doc', c) == Some(doc'[KeyOf(c)]) <==>
             ((KeyOf(c) in Keys(entries) || KeyOf(c) !in doc) && KeyOf(c) in Merge(doc, entries) ==>
                ColumnTyped(c, Merge(doc, entries)[KeyOf(c)]))))
  {
    hide Merge, Updated, TypedAt, ColumnTyped;
    assert KeyOf(Password) in doc && KeyOf(AccountName) in doc;
    var doc' := Updated(doc, entries);
    if KeyOf(c) in Keys(entries) || KeyOf(c) !in doc {
      NotKept(doc, entries, c);
      if KeyOf(c) in doc {
        MergePresent(doc, entries, KeyOf(c));
      }
      if KeyOf(c) in doc' {
        TypedIffColumnTyped(doc', c);
      }
    } else {
      KeptColumn(doc, entries, c);
      TypedIffColumnTyped(doc, c);
      TypedIffColumnTyped(doc', c);
    }
  }

  /** So a regular set keeps it well typed. */
  lemma RegularKeepsTyped(doc: Fields, entries: seq<Entry>)
    requires WellTyped(doc) && Regular(doc, entries)
    ensures WellTyped(Updated(doc, entries))
  {
    UpdatedWellTyped(doc, entries);
    forall c: Column | (KeyOf(c) in Keys(entries) || KeyOf(c) !in doc) && KeyOf(c) in Merge(doc, entries)
      ensures ColumnTyped(c, Merge(doc, entries)[KeyOf(c)])
    {
      NotKept(doc, entries, c);
      if KeyOf(c) in Keys(entries) {
        ColumnOfKey(c);
        var i :| 0 <= i < |entries| && entries[i].0 == KeyOf(c);
        assert entries[i] in entries;
        NamedColumn(doc, entries, c, i);
      } else {
        AbsentColumnIff(doc, entries, c);
      }
    }
  }

  /** A protected field that is there and not literally in the set keeps its value. */
  lemma KeptColumn(doc: Fields, entries: seq<Entry>, c: Column)
    requires WellTyped(doc) && KeyOf(c) in doc && KeyOf(c) !in Keys(entries)
    ensures KeyOf(c) in Updated(doc, entries) && Updated(doc, entries)[KeyOf(c)] == doc[KeyOf(c)]
  {
    ColumnOfKey(c);
    assert TypedAt(doc, c) == Some(doc[KeyOf(c)]);
  }

  /** A protected field that is neither there nor in the set stays absent exactly when no dotted key writes
      at or below it: there is no column value to put back. */
  lemma AbsentColumnIff(doc: Fields, entries: seq<Entry>, c: Column)
    requires KeyOf(c) !in doc && KeyOf(c) !in Keys(entries) && c != Password
    ensures KeyOf(c) !in Updated(doc, entries) <==> !DottedInto(Keys(entries), KeyOf(c))
  {
    NotKept(doc, entries, c);
    if DottedInto(Keys(entries), KeyOf(c)) {
      var k :| k in Keys(entries) && '.' in k && Target(k) != [] && Target(k)[0] == KeyOf(c);
      var e :| e in entries && e.0 == k;
      MergePresent(doc, entries, KeyOf(c));
    } else {
      forall e | e in entries ensures Target(e.0) == [] || Target(e.0)[0] != KeyOf(c) {
        assert e.0 in Keys(entries);
      }
      MergeAside(doc, entries, KeyOf(c));
    }
  }

  lemma LeadingDot(name: string)
    requires name != "" && '.' !in name
    ensures '.' in "." + name && Target("." + name) == [name]
  {
    var key := "." + name;
    assert key[0] == '.' && key[1..] == name;
    assert forall k :: k in SKIPPED ==> k[0] != '.';
    SegmentsOfDotted([name]);
  }

  /** It happens: a key such as `.Creation` gives a document the field it lacks. */
  lemma DottedCreates(doc: Fields, c: Column, v: Json)
    requires KeyOf(c) !in doc && c != Password
    ensures KeyOf(c) in Updated(doc, [("." + KeyOf(c), v)]) && Updated(doc, [("." + KeyOf(c), v)])[KeyOf(c)] == v
  {
    hide Target, KeyOf;
    var entries: seq<Entry> := [("." + KeyOf(c), v)];
    ProtectedHasNoDot(c);
    LeadingDot(KeyOf(c));
    assert entries[0] in entries && entries[..0] == [];
    assert KeyOf(c) in Merge(doc, entries) && Merge(doc, entries)[KeyOf(c)] == v;
    assert KeyOf(c) !in Keys(entries);
    NotKept(doc, entries, c);
  }

  /** A protected field the set names, with no dotted key beside it, takes the value given. */
  lemma NamedColumn(doc: Fields, entries: seq<Entry>, c: Column, i: nat)
    requires DistinctKeys(entries) && i < |entries| && entries[i].0 == KeyOf(c) && c != AccountName
    requires !DottedInto(Keys(entries), KeyOf(c))
    ensures KeyOf(c) in Updated(doc, entries) && Updated(doc, entries)[KeyOf(c)] == entries[i].1
  {
    hide Merge, TypedAt;
    ProtectedHasNoDot(c);
    assert entries[i] in entries && entries[i].0 in Keys(entries);
    NotKept(doc, entries, c);
    assert Target(KeyOf(c)) == [KeyOf(c)] by {
      assert KeyOf(c) !in SKIPPED;
    }
    forall j | 0 <= j < |entries| && j != i
      ensures Target(entries[j].0) == [] || Target(entries[j].0)[0] != entries[i].0
    {
      assert entries[j] in entries && entries[j].0 in Keys(entries);
    }
    MergeLiteral(doc, entries, i);
  }

  // ----- The name an update is written under -----

  /** A set that names `AccountName` has no dotted spelling of it as well. Skipping the literal key
      also switches off the restoring of the name, so a spelling such as `.AccountName` gets through
      the merge, and the write that follows looks for the row of that name. */
  ghost predicate NameSafe(keys: set<string>) {
    "AccountName" in keys ==> !exists k :: k in keys && '.' in k && Target(k) == ["AccountName"]
  }

  ghost predicate KeepsName(doc: Fields, entries: seq<Entry>) {
    StrAt(doc, "AccountName").Some? && UpdateOutcome(doc, entries).Ok? ==>
      UpdateOutcome(doc, entries).value.accountName == StrAt(doc, "AccountName").value
  }

  /** The merge yields the row's own name, for every document and values, exactly for the safe key sets. */
  lemma NameKeptIffSafe(keys: set<string>)
    ensures NameSafe(keys) <==> forall doc, entries :: Lists(entries, keys) ==> KeepsName(doc, entries)
  {
    if NameSafe(keys) {
      forall doc, entries | Lists(entries, keys) ensures KeepsName(doc, entries) {
        SafeKeepsName(doc, entries);
      }
    } else {
      var doc, entries := UnsafeMisnames(keys);
    }
  }

  lemma UnsafeMisnames(keys: set<string>) returns (doc: Fields, entries: seq<Entry>)
    requires !NameSafe(keys)
    ensures Lists(entries, keys) && !KeepsName(doc, entries)
  {
    hide UpdateOutcome;
    var k :| k in keys && '.' in k && Target(k) == ["AccountName"];
    var others := ListKeys(keys - {k});
    doc := map["AccountName" := Str("A")];
    assert "AccountName" in keys - {k};
    OnlyNamed(doc);
    MisnamingSucceeds(doc, others, k);
    entries := others + [(k, Str("B"))];
    assert keys - {k} + {k} == keys;
  }

  lemma OnlyNamed(doc: Fields)
    requires doc == map["AccountName" := Str("A")]
    ensures StrAt(doc, "AccountName") == Some("A") && "Name" !in doc && "MemberNumber" !in doc
    ensures PasswordFromJson(doc) == ""
  {
  }

  lemma SafeKeepsName(doc: Fields, entries: seq<Entry>)
    requires NameSafe(Keys(entries))
    ensures KeepsName(doc, entries)
  {
    ColumnOfKey(AccountName);
    assert KeyOf(AccountName) == "AccountName";
    if "AccountName" in Keys(entries) {
      forall e | e in entries ensures Target(e.0) != ["AccountName"] {
        assert e.0 in Keys(entries);
      }
      MergeNeverWrites(doc, entries, "AccountName");
    }
  }

  /** A field no key writes exactly is left alone, or becomes an object. */
  lemma {:induction false} MergeNeverWrites(doc: Fields, entries: seq<Entry>, k: string)
    requires forall e :: e in entries ==> Target(e.0) != [k]
    ensures k in Merge(doc, entries) ==>
      Merge(doc, entries)[k].Obj? || (k in doc && Merge(doc, entries)[k] == doc[k])
    decreases |entries|
  {
    if entries != [] {
      var n := |entries| - 1;
      MergeNeverWrites(doc, entries[..n], k);
      var path := Target(entries[n].0);
      assert entries[n] in entries;
      assert |path| == 1 ==> path == [path[0]];
    }
  }

  /** Null values leave a field that was not there absent, null or an object. */
  lemma {:induction false} MergeOfNulls(doc: Fields, entries: seq<Entry>, k: string)
    requires k !in doc && forall e :: e in entries ==> e.1 == Null
    ensures k in Merge(doc, entries) ==> Merge(doc, entries)[k] == Null || Merge(doc, entries)[k].Obj?
    decreases |entries|
  {
    if entries != [] {
      var n := |entries| - 1;
      assert entries[n] in entries;
      MergeOfNulls(doc, entries[..n], k);
    }
  }

  /** What the merge leaves of an absent column when all values are null but the name's. */
  lemma NullColumn(doc: Fields, entries: seq<Entry>, k: string, c: Column)
    requires KeyOf(c) !in doc && c != Password && c != AccountName
    requires (forall e :: e in entries ==> e.1 == Null) && Target(k) == ["AccountName"]
    ensures
      var doc' := Updated(doc, entries + [(k, Str("B"))]);
      KeyOf(c) in doc' ==> doc'[KeyOf(c)] == Null || doc'[KeyOf(c)].Obj?
  {
    var longer := entries + [(k, Str("B"))];
    assert longer[..|entries|] == entries;
    MergeOfNulls(doc, entries, KeyOf(c));
    NotKept(doc, longer, c);
  }

  /** The literal name is skipped and not restored, so the dotted spelling decides. */
  lemma MisnamingSucceeds(doc: Fields, entries: seq<Entry>, k: string)
    requires "AccountName" in Keys(entries) && k !in Keys(entries) && DistinctKeys(entries)
    requires Target(k) == ["AccountName"] && forall e :: e in entries ==> e.1 == Null
    requires "Name" !in doc && "MemberNumber" !in doc && PasswordFromJson(doc) == ""
    ensures
      var longer := entries + [(k, Str("B"))];
      var r := UpdateOutcome(doc, longer);
      && DistinctKeys(longer) && Keys(longer) == Keys(entries) + {k}
      && r.Ok? && r.value.accountName == "B" && r.value.name.None? && r.value.memberNumber.None?
  {
    hide Updated, Merge, Target;
    var longer := entries + [(k, Str("B"))];
    KeysOfSnoc(entries, k, Str("B"));
    forall i | 0 <= i < |entries| ensures entries[i].0 != k {
      assert entries[i] in entries && entries[i].0 in Keys(entries);
    }
    assert KeyOf(Name) == "Name" && KeyOf(MemberNumber) == "MemberNumber";
    NullColumn(doc, entries, k, Name);
    NullColumn(doc, entries, k, MemberNumber);
    MisnamedMerge(doc, entries, k);
  }

  lemma MisnamedMerge(doc: Fields, entries: seq<Entry>, k: string)
    requires "AccountName" in Keys(entries) && Target(k) == ["AccountName"]
    ensures StrAt(Updated(doc, entries + [(k, Str("B"))]), "AccountName") == Some("B")
  {
    var longer := entries + [(k, Str("B"))];
    KeysOfSnoc(entries, k, Str("B"));
    assert longer[..|entries|] == entries;
    assert KeyOf(AccountName) == "AccountName";
    NotKept(doc, longer, AccountName);
  }
}
