/** Dotted-path writes into a JSON tree (`src/util/json_path.rs`).
    The tree laws below are about `Write`, the recursive meaning of one write; the in-place loop of
    the source is `ApplyDottedPath`, proved to compute it. */
module JsonPaths {
  import opened Options

  /** Numbers are integers here; the order of an object's fields is not modelled. */
  datatype Json =
    | Null
    | Bool(b: bool)
    | Num(n: int)
    | Str(s: string)
    | Arr(items: seq<Json>)
    | Obj(fields: Fields)

  type Fields = map<string, Json>

  type Path = seq<string>

  // ----- Paths -----

  /** The non-empty pieces of a key between its dots. */
  function Segments(key: string): (path: Path)
    ensures forall seg :: seg in path ==> seg != "" && '.' !in seg
    decreases |key|
  {
    var i := FirstDot(key);
    var head := if i == 0 then [] else [key[..i]];
    if i == |key| then head else head + Segments(key[i + 1..])
  }

  /** Where the first dot is, or the end. */
  function FirstDot(key: string): (i: nat)
    ensures i <= |key| && '.' !in key[..i] && (i < |key| ==> key[i] == '.')
  {
    if key == "" || key[0] == '.' then 0
    else
      var i := 1 + FirstDot(key[1..]);
      assert key[..i] == [key[0]] + key[1..][..i - 1];
      i
  }

  /** A path written out as a key. */
  function Dotted(path: Path): string {
    if path == [] then "" else if |path| == 1 then path[0] else path[0] + "." + Dotted(path[1..])
  }

  /** Splitting a written-out path gives it back, when its names are non-empty and dot-free. */
  lemma {:induction false} SegmentsOfDotted(path: Path)
    requires forall seg :: seg in path ==> seg != "" && '.' !in seg
    ensures Segments(Dotted(path)) == path
  {
    if path == [] {
    } else if |path| == 1 {
      FirstDotAt(path[0], "");
      assert path[0] + "" == path[0];
    } else {
      var rest := Dotted(path[1..]);
      forall seg | seg in path[1..] ensures seg in path {
      }
      SegmentsOfDotted(path[1..]);
      var key := Dotted(path);
      assert key == path[0] + ("." + rest);
      FirstDotAt(path[0], "." + rest);
      assert key[|path[0]| + 1..] == rest && key[..|path[0]|] == path[0];
    }
  }

  lemma {:induction false} FirstDotAt(name: string, tail: string)
    requires '.' !in name && (tail == "" || tail[0] == '.')
    ensures FirstDot(name + tail) == |name|
  {
    if name != "" {
      assert (name + tail)[1..] == name[1..] + tail;
      FirstDotAt(name[1..], tail);
    } else {
      assert name + tail == tail;
    }
  }

  // ----- One write -----

  /** The object stored under a name, or the empty object when there is none. */
  function Child(root: Fields, name: string): Fields {
    if name in root && root[name].Obj? then root[name].fields else map[]
  }

  /** The tree after writing `value` at `path`; an empty path writes nothing. */
  function Write(root: Fields, path: Path, value: Json): Fields
    decreases |path|
  {
    if |path| == 0 then root
    else root[path[0] := if |path| == 1 then value else Obj(Write(Child(root, path[0]), path[1..], value))]
  }

  /** What a path leads to. */
  function Read(root: Fields, path: Path): Option<Json>
    requires path != []
    decreases |path|
  {
    if path[0] !in root then None
    else if |path| == 1 then Some(root[path[0]])
    else if root[path[0]].Obj? then Read(root[path[0]].fields, path[1..])
    else None
  }

  /** Neither path leads through the other. */
  ghost predicate Apart(p: Path, q: Path) {
    !(p <= q) && !(q <= p)
  }

  lemma {:induction false} ReadBack(root: Fields, path: Path, value: Json)
    requires path != []
    ensures Read(Write(root, path, value), path) == Some(value)
    decreases |path|
  {
    if |path| > 1 {
      ReadBack(Child(root, path[0]), path[1..], value);
    }
  }

  lemma ApartTails(p: Path, q: Path)
    requires Apart(p, q) && p[0] == q[0]
    ensures |p| > 1 && |q| > 1 && Apart(p[1..], q[1..])
  {
    assert p == [p[0]] + p[1..] && q == [q[0]] + q[1..];
  }

  lemma {:induction false} ReadElsewhere(root: Fields, path: Path, value: Json, other: Path)
    requires Apart(path, other)
    ensures Read(Write(root, path, value), other) == Read(root, other)
    decreases |path|
  {
    if path[0] == other[0] {
      ApartTails(path, other);
      ReadElsewhere(Child(root, path[0]), path[1..], value, other[1..]);
      ReadEmpty(other[1..]);
    }
  }

  lemma ReadEmpty(path: Path)
    requires path != []
    ensures Read(map[], path) == None
  {
  }

  lemma {:induction false} WritesCommute(root: Fields, p: Path, v: Json, q: Path, w: Json)
    requires Apart(p, q)
    ensures Write(Write(root, p, v), q, w) == Write(Write(root, q, w), p, v)
    decreases |p|
  {
    if p[0] == q[0] {
      ApartTails(p, q);
      WritesCommute(Child(root, p[0]), p[1..], v, q[1..], w);
      WriteBelowTwice(root, p, v, q, w);
      WriteBelowTwice(root, q, w, p, v);
    } else {
      WritesBeside(root, p, v, q, w);
    }
  }

  lemma WriteBelowTwice(root: Fields, p: Path, v: Json, q: Path, w: Json)
    requires |p| > 1 && |q| > 1 && p[0] == q[0]
    ensures Write(Write(root, p, v), q, w) ==
            root[q[0] := Obj(Write(Write(Child(root, p[0]), p[1..], v), q[1..], w))]
  {
  }

  lemma WritesBeside(root: Fields, p: Path, v: Json, q: Path, w: Json)
    requires p != [] && q != [] && p[0] != q[0]
    ensures Write(Write(root, p, v), q, w) == Write(Write(root, q, w), p, v)
  {
    var a, b := Write(root, p, v), Write(root, q, w);
    assert Child(a, q[0]) == Child(root, q[0]);
    assert Child(b, p[0]) == Child(root, p[0]);
    SwapUpdates(root, p[0], a[p[0]], q[0], b[q[0]]);
  }

  lemma SwapUpdates<K, V>(m: map<K, V>, k: K, v: V, l: K, w: V)
    requires k != l
    ensures m[k := v][l := w] == m[l := w][k := v]
  {
  }

  /** Writing a place again, or anywhere on the way to it, forgets the earlier write. */
  lemma {:induction false} LaterWriteWins(root: Fields, p: Path, v: Json, q: Path, w: Json)
    requires q != [] && q <= p
    ensures Write(Write(root, p, v), q, w) == Write(root, q, w)
    decreases |q|
  {
    if |q| > 1 {
      assert q[1..] <= p[1..];
      LaterWriteWins(Child(root, p[0]), p[1..], v, q[1..], w);
    }
  }

  // ----- The source's loop -----

  /** Puts `inner` back at the end of the chain of objects a cursor walked through. */
  ghost function Rebuild(spine: seq<Fields>, path: Path, inner: Fields): Fields
    requires |spine| == |path|
    decreases |spine|
  {
    var n := |spine|;
    if n == 0 then inner
    else Rebuild(spine[..n - 1], path[..n - 1], spine[n - 1][path[n - 1] := Obj(inner)])
  }

  /** A cursor walks down to the last name of the path, replacing whatever is not an object. */
  method WalkDown(root: Fields, path: Path, ghost value: Json) returns (spine: seq<Fields>, current: Fields)
    requires |path| > 1
    ensures |spine| == |path| - 1
    ensures Write(root, path, value) ==
            Rebuild(spine, path[..|spine|], Write(current, path[|spine|..], value))
  {
    spine, current := [], root;
    var i := 0;
    while i < |path| - 1
      invariant 0 <= i <= |path| - 1 && |spine| == i
      invariant Write(root, path, value) == Rebuild(spine, path[..i], Write(current, path[i..], value))
    {
      WriteThrough(spine, current, path, i, value);
      if path[i] !in current || !current[path[i]].Obj? {
        current := current[path[i] := Obj(map[])];
      }
      spine := spine + [current];
      current := current[path[i]].fields;
      i := i + 1;
    }
  }

  /** The write itself, after which the objects passed on the way hold the change. */
  method ApplyDottedPath(root: Fields, key: string, value: Json) returns (r: Fields)
    ensures r == Write(root, Segments(key), value)
  {
    var path := Segments(key);
    if |path| == 0 {
      return root;
    }
    if |path| == 1 {
      return root[path[0] := value];
    }
    var spine, current := WalkDown(root, path, value);
    var i := |path| - 1;
    r := current[path[i] := value];
    assert r == Write(current, path[i..], value);
    while i > 0
      invariant 0 <= i <= |path| - 1 && |spine| == i
      invariant Write(root, path, value) == Rebuild(spine, path[..i], r)
    {
      i := i - 1;
      RebuildStep(spine, path, i, r);
      r := spine[i][path[i] := Obj(r)];
      spine := spine[..i];
    }
  }

  /** Writing below an object is writing below the child the cursor moves to. */
  lemma WriteThrough(spine: seq<Fields>, current: Fields, path: Path, i: nat, value: Json)
    requires |spine| == i && i + 1 < |path|
    ensures
      var entered := if path[i] in current && current[path[i]].Obj? then current
                    else current[path[i] := Obj(map[])];
      Rebuild(spine, path[..i], Write(current, path[i..], value)) ==
      Rebuild(spine + [entered], path[..i + 1], Write(entered[path[i]].fields, path[i + 1..], value))
  {
    var entered := if path[i] in current && current[path[i]].Obj? then current
                  else current[path[i] := Obj(map[])];
    var inner := Write(Child(current, path[i]), path[i + 1..], value);
    assert path[i..][0] == path[i] && path[i..][1..] == path[i + 1..];
    assert Write(current, path[i..], value) == entered[path[i] := Obj(inner)];
    assert entered[path[i]].fields == Child(current, path[i]);
    assert (spine + [entered])[..i] == spine;
    RebuildStep(spine + [entered], path, i, inner);
  }

  lemma RebuildStep(spine: seq<Fields>, path: Path, i: nat, inner: Fields)
    requires |spine| == i + 1 <= |path|
    ensures Rebuild(spine, path[..i + 1], inner) ==
            Rebuild(spine[..i], path[..i], spine[i][path[i] := Obj(inner)])
  {
    assert path[..i + 1][..i] == path[..i];
  }

  // ----- Merging a set of updates -----

  /** One key of an update with its value. A set is listed in its iteration order. */
  type Entry = (string, Json)

  function Keys(entries: seq<Entry>): set<string> {
    set e | e in entries :: e.0
  }

  ghost predicate DistinctKeys(entries: seq<Entry>) {
    forall i, j :: 0 <= i < j < |entries| ==> entries[i].0 != entries[j].0
  }

  const SKIPPED := {"_id", "MapData", "AccountName"}

  /** Where a key writes: nowhere, at its dotted path, or at the top under its own name. */
  function Target(key: string): Path {
    if key in SKIPPED then []
    else if '.' in key then Segments(key)
    else [key]
  }

  /** The tree after all entries, in order. */
  function Merge(root: Fields, entries: seq<Entry>): Fields
    decreases |entries|
  {
    if entries == [] then root
    else
      var n := |entries| - 1;
      Write(Merge(root, entries[..n]), Target(entries[n].0), entries[n].1)
  }

  lemma MergeStep(root: Fields, entries: seq<Entry>, i: nat)
    requires i < |entries|
    ensures Merge(root, entries[..i + 1]) ==
            Write(Merge(root, entries[..i]), Target(entries[i].0), entries[i].1)
  {
    assert entries[..i + 1][..i] == entries[..i];
  }

  lemma ShortWrites(root: Fields, name: string, value: Json)
    ensures Write(root, [], value) == root && Write(root, [name], value) == root[name := value]
  {
  }

  method MergeSetIntoObject(root: Fields, entries: seq<Entry>) returns (r: Fields)
    ensures r == Merge(root, entries)
  {
    hide Write, Segments, SKIPPED;
    r := root;
    var i := 0;
    while i < |entries|
      invariant 0 <= i <= |entries| && r == Merge(root, entries[..i])
    {
      var (k, v) := entries[i];
      MergeStep(root, entries, i);
      ShortWrites(r, k, v);
      i := i + 1;
      if k in SKIPPED {
        continue;
      }
      if '.' in k {
        r := ApplyDottedPath(r, k, v);
      } else {
        r := r[k := v];
      }
    }
    assert entries[..i] == entries;
  }

  /** No two entries write on the way to one another. */
  ghost predicate PrefixFree(entries: seq<Entry>) {
    forall i, j :: 0 <= i < j < |entries| ==>
      var p, q := Target(entries[i].0), Target(entries[j].0);
      p == [] || q == [] || Apart(p, q)
  }

  /** Writes through paths apart from everything in a set can be made before or after it. */
  lemma {:induction false} WriteCommutesWithMerge(root: Fields, entries: seq<Entry>, p: Path, v: Json)
    requires forall e :: e in entries ==> Target(e.0) == [] || p == [] || Apart(p, Target(e.0))
    ensures Merge(Write(root, p, v), entries) == Write(Merge(root, entries), p, v)
    decreases |entries|
  {
    if entries != [] && p != [] {
      var n := |entries| - 1;
      WriteCommutesWithMerge(root, entries[..n], p, v);
      if Target(entries[n].0) != [] {
        WritesCommute(Merge(root, entries[..n]), p, v, Target(entries[n].0), entries[n].1);
      }
    }
  }

  lemma {:induction false} MergeConcat(root: Fields, a: seq<Entry>, b: seq<Entry>)
    ensures Merge(root, a + b) == Merge(Merge(root, a), b)
    decreases |b|
  {
    if b == [] {
      assert a + b == a;
    } else {
      var n := |b| - 1;
      assert (a + b)[..|a + b| - 1] == a + b[..n];
      MergeConcat(root, a, b[..n]);
    }
  }

  /** A prefix-free set gives the same tree whatever order its entries are visited in. */
  lemma {:induction false} MergeOrderIrrelevant(root: Fields, a: seq<Entry>, b: seq<Entry>)
    requires multiset(a) == multiset(b) && PrefixFree(a)
    ensures Merge(root, a) == Merge(root, b)
    decreases |b|
  {
    if b == [] {
      assert |multiset(a)| == 0;
    } else {
      var n := |b| - 1;
      var i := FindLast(a, b);
      MoveToEnd(root, a, i);
      DropKeepsPrefixFree(a, i);
      MergeOrderIrrelevant(root, a[..i] + a[i + 1..], b[..n]);
    }
  }

  lemma FindLast<T>(a: seq<T>, b: seq<T>) returns (i: nat)
    requires multiset(a) == multiset(b) && b != []
    ensures i < |a| && a[i] == b[|b| - 1]
    ensures multiset(a[..i] + a[i + 1..]) == multiset(b[..|b| - 1])
  {
    var n := |b| - 1;
    assert b[n] in multiset(b);
    i :| 0 <= i < |a| && a[i] == b[n];
    SplitMultiset(a, i);
    SplitMultiset(b, n);
    assert b[..n] + b[n + 1..] == b[..n];
  }

  lemma SplitMultiset<T>(a: seq<T>, i: nat)
    requires i < |a|
    ensures multiset(a[..i] + a[i + 1..]) == multiset(a) - multiset{a[i]}
  {
    assert a == a[..i] + ([a[i]] + a[i + 1..]);
  }

  /** In a prefix-free set any one entry may go last. */
  lemma MoveToEnd(root: Fields, a: seq<Entry>, i: nat)
    requires PrefixFree(a) && i < |a|
    ensures Merge(root, a) ==
            Write(Merge(root, a[..i] + a[i + 1..]), Target(a[i].0), a[i].1)
  {
    hide Merge, Write, Target, PrefixFree;
    var p, v := Target(a[i].0), a[i].1;
    assert a == a[..i + 1] + a[i + 1..];
    MergeConcat(root, a[..i + 1], a[i + 1..]);
    MergeStep(root, a, i);
    ApartFromLater(a, i);
    WriteCommutesWithMerge(Merge(root, a[..i]), a[i + 1..], p, v);
    MergeConcat(root, a[..i], a[i + 1..]);
  }

  lemma ApartFromLater(a: seq<Entry>, i: nat)
    requires PrefixFree(a) && i < |a|
    ensures
      var p := Target(a[i].0);
      forall e :: e in a[i + 1..] ==> Target(e.0) == [] || p == [] || Apart(p, Target(e.0))
  {
    hide Target, Apart;
    var p := Target(a[i].0);
    forall e | e in a[i + 1..] ensures Target(e.0) == [] || p == [] || Apart(p, Target(e.0)) {
      var j :| i + 1 <= j < |a| && a[j] == e;
    }
  }

  lemma DropKeepsPrefixFree(a: seq<Entry>, i: nat)
    requires PrefixFree(a) && i < |a|
    ensures PrefixFree(a[..i] + a[i + 1..])
  {
    var rest := a[..i] + a[i + 1..];
    forall x, y | 0 <= x < y < |rest|
      ensures
        var p, q := Target(rest[x].0), Target(rest[y].0);
        p == [] || q == [] || Apart(p, q)
    {
      var x' := if x < i then x else x + 1;
      var y' := if y < i then y else y + 1;
      assert rest[x] == a[x'] && rest[y] == a[y'];
    }
  }

  // ----- Which sets depend on the order -----

  /** The entries have exactly these keys, each once. */
  ghost predicate Lists(entries: seq<Entry>, keys: set<string>) {
    DistinctKeys(entries) && Keys(entries) == keys
  }

  /** Some set with the keys given, all its values null. */
  lemma {:induction false} ListKeys(keys: set<string>) returns (entries: seq<Entry>)
    ensures Lists(entries, keys) && forall e :: e in entries ==> e.1 == Null
    decreases |keys|
  {
    if keys == {} {
      entries := [];
    } else {
      var k :| k in keys;
      var rest := ListKeys(keys - {k});
      entries := rest + [(k, Null)];
      forall i | 0 <= i < |rest| ensures rest[i].0 != k {
        assert rest[i] in rest && rest[i].0 in Keys(rest);
      }
      KeysOfSnoc(rest, k, Null);
    }
  }

  lemma KeysOfSnoc(entries: seq<Entry>, k: string, v: Json)
    ensures Keys(entries + [(k, v)]) == Keys(entries) + {k}
  {
    var longer := entries + [(k, v)];
    assert longer[|entries|] == (k, v) && (k, v) in longer;
    forall x | x in Keys(entries) ensures x in Keys(longer) {
      var e :| e in entries && e.0 == x;
      assert e in longer;
    }
  }

  /** No two keys write on the way to one another. */
  ghost predicate NoOverlap(keys: set<string>) {
    forall j, k :: j in keys && k in keys && j != k ==>
      Target(j) == [] || Target(k) == [] || Apart(Target(j), Target(k))
  }

  /** Whatever is merged into and whatever the values, every order of the keys gives the same tree. */
  ghost predicate OrderIrrelevant(keys: set<string>) {
    forall root: Fields, a, b :: Lists(a, keys) && multiset(a) == multiset(b) ==> Merge(root, a) == Merge(root, b)
  }

  /** The order of a set matters exactly when two of its keys overlap. */
  lemma OrderIrrelevantIff(keys: set<string>)
    ensures OrderIrrelevant(keys) <==> NoOverlap(keys)
  {
    hide Target, Apart, Merge;
    if NoOverlap(keys) {
      forall root: Fields, a, b | Lists(a, keys) && multiset(a) == multiset(b)
        ensures Merge(root, a) == Merge(root, b)
      {
        NoOverlapIsPrefixFree(a, keys);
        MergeOrderIrrelevant(root, a, b);
      }
    } else {
      var j, k := Overlapping(keys);
      var a, b := OverlapShows(keys, j, k);
    }
  }

  lemma NoOverlapIsPrefixFree(a: seq<Entry>, keys: set<string>)
    requires Lists(a, keys) && NoOverlap(keys)
    ensures PrefixFree(a)
  {
    hide Target, Apart;
    forall x, y | 0 <= x < y < |a|
      ensures
        var p, q := Target(a[x].0), Target(a[y].0);
        p == [] || q == [] || Apart(p, q)
    {
      assert a[x] in a && a[y] in a && a[x].0 in Keys(a) && a[y].0 in Keys(a);
    }
  }

  /** Two overlapping keys, the one that writes above first. */
  lemma Overlapping(keys: set<string>) returns (j: string, k: string)
    requires !NoOverlap(keys)
    ensures j in keys && k in keys && j != k && Target(j) != [] && Target(j) <= Target(k)
  {
    hide Target;
    j, k :| j in keys && k in keys && j != k && Target(j) != [] && Target(k) != [] && !Apart(Target(j), Target(k));
    if !(Target(j) <= Target(k)) {
      j, k := k, j;
    }
  }

  /** Writing `null` above and a text below, in both orders. */
  lemma OverlapShows(keys: set<string>, j: string, k: string) returns (a: seq<Entry>, b: seq<Entry>)
    requires j in keys && k in keys && j != k && Target(j) != [] && Target(j) <= Target(k)
    ensures Lists(a, keys) && multiset(a) == multiset(b) && Merge(map[], a) != Merge(map[], b)
  {
    hide Target, Merge, Write, Read, Lists;
    var others := ListKeys(keys - {j, k});
    var upper, lower: Entry := (j, Null), (k, Str("x"));
    a, b := others + [upper, lower], others + [lower, upper];
    ListsTwoMore(others, keys, upper, lower);
    assert multiset([upper, lower]) == multiset([lower, upper]);
    var m := Merge(map[], others);
    MergeTwoMore(others, upper, lower);
    MergeTwoMore(others, lower, upper);
    ReadAbove(Write(m, Target(j), Null), Target(j), Target(k), Str("x"));
    ReadBack(Write(m, Target(k), Str("x")), Target(j), Null);
  }

  lemma ListsTwoMore(others: seq<Entry>, keys: set<string>, x: Entry, y: Entry)
    requires x.0 in keys && y.0 in keys && x.0 != y.0 && Lists(others, keys - {x.0, y.0})
    ensures Lists(others + [x, y], keys)
  {
    forall i | 0 <= i < |others| ensures others[i].0 != x.0 && others[i].0 != y.0 {
      assert others[i] in others && others[i].0 in Keys(others);
    }
    KeysOfSnoc(others, x.0, x.1);
    KeysOfSnoc(others + [x], y.0, y.1);
    assert others + [x, y] == others + [x] + [y];
  }

  lemma MergeTwoMore(others: seq<Entry>, x: Entry, y: Entry)
    ensures Merge(map[], others + [x, y]) ==
            Write(Write(Merge(map[], others), Target(x.0), x.1), Target(y.0), y.1)
  {
    hide Write, Target, Merge;
    var all := others + [x, y];
    MergeStep(map[], all, |others|);
    MergeStep(map[], all, |others| + 1);
    assert all[..|others|] == others && all[..|others| + 2] == all;
  }

  /** Above a write there is an object, and at it the value. */
  lemma {:induction false} ReadAbove(root: Fields, p: Path, q: Path, v: Json)
    requires p != [] && p <= q
    ensures
      var r := Read(Write(root, q, v), p);
      r.Some? && (r.value == v || r.value.Obj?)
    decreases |p|
  {
    if |p| > 1 {
      ReadAbove(Child(root, q[0]), p[1..], q[1..], v);
    }
  }

  lemma TwoTargets()
    ensures Target("A.B") == ["A", "B"] && Target("A") == ["A"]
  {
    SegmentsOfDotted(["A", "B"]);
    assert Dotted(["A", "B"]) == "A.B";
    assert "A.B"[1] == '.';
  }

  /** For example `A` then `A.B` keeps the field, `A.B` then `A` loses it. */
  lemma OverlapDependsOnOrder(v: Json)
    ensures
      var a, b := [("A", Null), ("A.B", v)], [("A.B", v), ("A", Null)];
      multiset(a) == multiset(b) && Merge(map[], a) != Merge(map[], b)
  {
    hide Target;
    TwoTargets();
    MergeTwoMore([], ("A", Null), ("A.B", v));
    MergeTwoMore([], ("A.B", v), ("A", Null));
    assert [] + [("A", Null), ("A.B", v)] == [("A", Null), ("A.B", v)];
    assert [] + [("A.B", v), ("A", Null)] == [("A.B", v), ("A", Null)];
  }

  // ----- The online copy -----

  /** The session keeps unrecognised fields in `extra`. A dotted key is applied to a temporary
      object seeded with the field its first piece names, and every field is copied back. */
  method ApplyToExtra(extra: Fields, key: string, value: Json) returns (r: Fields)
    ensures r == Reseeded(extra, key, value)
  {
    var first := key[..FirstDot(key)];
    var nested: Fields := map[];
    if first in extra {
      nested := nested[first := extra[first]];
    }
    nested := ApplyDottedPath(nested, key, value);
    r := CopyBack(extra, nested);
  }

  method CopyBack<K(==), V>(extra: map<K, V>, nested: map<K, V>) returns (r: map<K, V>)
    ensures r == extra + nested
  {
    hide Copied;
    r := extra;
    var todo := nested.Keys;
    NoneCopied(extra, nested);
    while todo != {}
      invariant todo <= nested.Keys && r == Copied(extra, nested, todo)
      decreases |todo|
    {
      var nk :| nk in todo;
      OneCopied(extra, nested, todo, nk);
      r := r[nk := nested[nk]];
      todo := todo - {nk};
    }
    AllCopied(extra, nested);
  }

  /** What is written back while the fields in `todo` are still to come. */
  ghost function Copied<K, V>(extra: map<K, V>, nested: map<K, V>, todo: set<K>): map<K, V> {
    extra + (nested - todo)
  }

  lemma NoneCopied<K, V>(extra: map<K, V>, nested: map<K, V>)
    ensures Copied(extra, nested, nested.Keys) == extra
  {
  }

  lemma OneCopied<K, V>(extra: map<K, V>, nested: map<K, V>, todo: set<K>, k: K)
    requires k in todo && k in nested
    ensures Copied(extra, nested, todo - {k}) == Copied(extra, nested, todo)[k := nested[k]]
  {
  }

  lemma AllCopied<K, V>(extra: map<K, V>, nested: map<K, V>)
    ensures Copied(extra, nested, {}) == extra + nested
  {
    assert nested - {} == nested;
  }

  function Seed(extra: Fields, first: string): Fields {
    if first in extra then map[first := extra[first]] else map[]
  }

  function Reseeded(extra: Fields, key: string, value: Json): Fields {
    extra + Write(Seed(extra, key[..FirstDot(key)]), Segments(key), value)
  }

  /** Nothing lies beside the path: each object on the way holds at most the next name. */
  predicate Bare(fields: Fields, path: Path)
    decreases |path|
  {
    path != [] ==>
      && (forall k :: k in fields ==> k == path[0])
      && Bare(Child(fields, path[0]), path[1..])
  }

  /** The session copy agrees with a direct write exactly when the key does not start with a dot,
      or writes at the top, or has nothing beside it that the missing seed would lose. */
  lemma ExtraMatchesDirectWrite(extra: Fields, key: string, value: Json)
    ensures Reseeded(extra, key, value) == Write(extra, Segments(key), value) <==>
      var path := Segments(key);
      key == "" || key[0] != '.' || |path| < 2 || Bare(Child(extra, path[0]), path[1..])
  {
    hide Segments, Write, Bare, Seed, FirstDot;
    var path := Segments(key);
    var i := FirstDot(key);
    FirstSegment(key);
    if i > 0 {
      SeededWrite(extra, path, value);
    } else if path != [] {
      assert key[..i] == "";
      UnseededWrite(extra, path, value);
      if |path| > 1 {
        BareIffWriteFresh(Child(extra, path[0]), path[1..], value);
        SameUpdate(extra, path[0], Obj(Write(map[], path[1..], value)),
                   Obj(Write(Child(extra, path[0]), path[1..], value)));
      }
      DirectWrite(extra, path, value);
    } else {
      NoWrite(extra, "", value);
    }
  }

  lemma FirstSegment(key: string)
    ensures FirstDot(key) > 0 <==> key != "" && key[0] != '.'
    ensures FirstDot(key) > 0 ==> Segments(key) != [] && Segments(key)[0] == key[..FirstDot(key)]
    ensures key == "" ==> Segments(key) == []
  {
  }

  lemma DirectWrite(fields: Fields, path: Path, value: Json)
    requires path != []
    ensures Write(fields, path, value) ==
            if |path| == 1 then fields[path[0] := value]
            else fields[path[0] := Obj(Write(Child(fields, path[0]), path[1..], value))]
  {
  }

  lemma NoWrite(extra: Fields, first: string, value: Json)
    ensures extra + Write(Seed(extra, first), [], value) == extra == Write(extra, [], value)
  {
  }

  lemma SameUpdate<K, V>(m: map<K, V>, k: K, v: V, w: V)
    ensures m[k := v] == m[k := w] <==> v == w
  {
    assert m[k := v][k] == v && m[k := w][k] == w;
  }

  lemma SeededWrite(extra: Fields, path: Path, value: Json)
    requires path != []
    ensures extra + Write(Seed(extra, path[0]), path, value) == Write(extra, path, value)
  {
    assert Child(Seed(extra, path[0]), path[0]) == Child(extra, path[0]);
  }

  lemma UnseededWrite(extra: Fields, path: Path, value: Json)
    requires path != [] && path[0] != ""
    ensures extra + Write(Seed(extra, ""), path, value) ==
            if |path| == 1 then extra[path[0] := value]
            else extra[path[0] := Obj(Write(map[], path[1..], value))]
  {
    assert Child(Seed(extra, ""), path[0]) == map[];
  }

  lemma {:induction false} BareIffWriteFresh(fields: Fields, path: Path, value: Json)
    requires path != []
    ensures Bare(fields, path) <==> Write(fields, path, value) == Write(map[], path, value)
    decreases |path|
  {
    var a, b := Write(fields, path, value), Write(map[], path, value);
    assert a.Keys == fields.Keys + {path[0]} && b.Keys == {path[0]};
    assert (forall k :: k in fields ==> k == path[0]) <==> a.Keys == b.Keys;
    if |path| > 1 {
      BareIffWriteFresh(Child(fields, path[0]), path[1..], value);
      assert Child(map[], path[0]) == map[];
    }
    assert a.Keys == b.Keys ==> (a == b <==> a[path[0]] == b[path[0]]);
  }
}
