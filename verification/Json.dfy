/** JSON values as Python's json module sees them: a dictionary keeps its insertion order. */
module Json {

  datatype Json =
    | Null
    | Bool(b: bool)
    | Int(n: int)
    | Str(s: string)
    | Arr(items: seq<Json>)
    | Obj(fields: seq<Field>)

  datatype Field = Field(key: string, value: Json)

  /** Whether a Python value counts as true in a condition. */
  predicate Truthy(v: Json) {
    match v
    case Null => false
    case Bool(b) => b
    case Int(n) => n != 0
    case Str(s) => s != ""
    case Arr(items) => items != []
    case Obj(fields) => fields != []
  }

  /** The values that do not count: None, False, zero and whatever is empty. */
  lemma FalseValues(v: Json)
    ensures !Truthy(v) <==> v in [Null, Bool(false), Int(0), Str(""), Arr([]), Obj([])]
  {
  }

  predicate HasKey(fields: seq<Field>, key: string) {
    exists i :: 0 <= i < |fields| && fields[i].key == key
  }

  /** dict.get(key): None when the key is missing. */
  function Get(fields: seq<Field>, key: string): Json {
    if fields == [] then Null
    else if fields[0].key == key then fields[0].value
    else Get(fields[1..], key)
  }

  /** What a lookup finds: the value of a field with the key, and None when there is no such field. */
  lemma {:induction false} GetMeans(fields: seq<Field>, key: string)
    ensures HasKey(fields, key) ==> Field(key, Get(fields, key)) in fields
    ensures !HasKey(fields, key) ==> Get(fields, key) == Null
  {
    if fields != [] && fields[0].key != key {
      HasKeyHead(fields, key);
      GetMeans(fields[1..], key);
    }
  }

  /** Every dictionary, at every depth, has each key once: what a Python dict always is. */
  predicate Valid(v: Json)
    decreases v
  {
    match v
    case Arr(items) => forall i | 0 <= i < |items| :: Valid(items[i])
    case Obj(fields) => Distinct(fields) && forall i | 0 <= i < |fields| :: Valid(fields[i].value)
    case _ => true
  }

  predicate Distinct(fields: seq<Field>) {
    forall i, j | 0 <= i < j < |fields| :: fields[i].key != fields[j].key
  }

  /** A JSON value with its dictionaries as unordered maps. */
  datatype Value =
    | VNull
    | VBool(b: bool)
    | VInt(n: int)
    | VStr(s: string)
    | VArr(items: seq<Value>)
    | VObj(fields: map<string, Value>)

  /** What a value means once key order is forgotten at every nesting level. */
  function Meaning(v: Json): Value
    decreases v, 1
  {
    match v
    case Null => VNull
    case Bool(b) => VBool(b)
    case Int(n) => VInt(n)
    case Str(s) => VStr(s)
    case Arr(items) => VArr(MeaningOfItems(items))
    case Obj(fields) => VObj(MeaningOfFields(fields))
  }

  function MeaningOfItems(items: seq<Json>): (r: seq<Value>)
    ensures |r| == |items|
    decreases items, 0
  {
    if items == [] then [] else [Meaning(items[0])] + MeaningOfItems(items[1..])
  }

  function MeaningOfFields(fields: seq<Field>): map<string, Value>
    decreases fields, 0
  {
    if fields == [] then map[]
    else MeaningOfFields(fields[1..])[fields[0].key := Meaning(fields[0].value)]
  }

  /** The same JSON document up to key order at every depth. */
  predicate Same(a: Json, b: Json) { Meaning(a) == Meaning(b) }

  /** Python's < on strings: code points, leftmost difference decides. */
  predicate Less(a: string, b: string) {
    b != [] && (a == [] || a[0] < b[0] || (a[0] == b[0] && Less(a[1..], b[1..])))
  }

  /** At the leftmost difference, if any, the smaller code point is in a; otherwise a is a proper prefix. */
  ghost predicate Precedes(a: string, b: string) {
    exists n: nat :: n <= |a| && n < |b| && a[..n] == b[..n] && (n == |a| || a[n] < b[n])
  }

  lemma PrefixHead(a: string, b: string, n: nat)
    ensures 0 < n <= |a| && n <= |b| && a[..n] == b[..n] ==> a[0] == b[0]
  {
    if 0 < n <= |a| && n <= |b| { assert a[0] == a[..n][0] && b[0] == b[..n][0]; }
  }

  lemma {:induction false} LessIsPrecedes(a: string, b: string)
    ensures Less(a, b) <==> Precedes(a, b)
  {
    if a == [] && b != [] {
      assert a[..0] == b[..0];
    } else if a != [] && b != [] && a[0] == b[0] {
      LessIsPrecedes(a[1..], b[1..]);
      if Less(a, b) {
        var n: nat :| n <= |a| - 1 && n < |b| - 1 && a[1..][..n] == b[1..][..n]
                      && (n == |a| - 1 || a[1..][n] < b[1..][n]);
        assert a[..n + 1] == [a[0]] + a[1..][..n] && b[..n + 1] == [b[0]] + b[1..][..n];
      }
      if Precedes(a, b) {
        var n: nat :| n <= |a| && n < |b| && a[..n] == b[..n] && (n == |a| || a[n] < b[n]);
        assert a[1..][..n - 1] == a[..n][1..] && b[1..][..n - 1] == b[..n][1..];
      }
    } else if a != [] && b != [] {
      if a[0] < b[0] { assert a[..0] == b[..0]; }
      if Precedes(a, b) {
        var n: nat :| n <= |a| && n < |b| && a[..n] == b[..n] && (n == |a| || a[n] < b[n]);
        PrefixHead(a, b, n);
      }
    }
  }

  lemma {:induction false} LessTotal(a: string, b: string)
    ensures Less(a, b) || Less(b, a) || a == b
  {
    if a != [] && b != [] && a[0] == b[0] {
      LessTotal(a[1..], b[1..]);
      assert a == [a[0]] + a[1..] && b == [b[0]] + b[1..];
    }
  }

  lemma {:induction false} LessIrreflexive(a: string)
    ensures !Less(a, a)
  {
    if a != [] { LessIrreflexive(a[1..]); }
  }

  lemma {:induction false} LessTransitive(a: string, b: string, c: string)
    requires Less(a, b) && Less(b, c)
    ensures Less(a, c)
  {
    if a != [] && a[0] == b[0] == c[0] { LessTransitive(a[1..], b[1..], c[1..]); }
  }

  /** The value json.dumps(..., sort_keys=True) prints: every dictionary sorted by key. */
  function SortKeys(v: Json): Json
    decreases v, 1
  {
    match v
    case Arr(items) => Arr(SortInItems(items))
    case Obj(fields) => Obj(SortFields(fields))
    case _ => v
  }

  function SortInItems(items: seq<Json>): (r: seq<Json>)
    ensures |r| == |items|
    decreases items, 0
  {
    if items == [] then [] else [SortKeys(items[0])] + SortInItems(items[1..])
  }

  function SortFields(fields: seq<Field>): seq<Field>
    decreases fields, 0
  {
    if fields == [] then []
    else Insert(Field(fields[0].key, SortKeys(fields[0].value)), SortFields(fields[1..]))
  }

  function Insert(f: Field, fields: seq<Field>): seq<Field> {
    if fields == [] || Less(f.key, fields[0].key) then [f] + fields
    else [fields[0]] + Insert(f, fields[1..])
  }

  predicate Sorted(fields: seq<Field>) {
    forall i, j | 0 <= i < j < |fields| :: Less(fields[i].key, fields[j].key)
  }

  /** Every dictionary at every depth is in key order. */
  predicate Canonical(v: Json)
    decreases v
  {
    match v
    case Arr(items) => forall i | 0 <= i < |items| :: Canonical(items[i])
    case Obj(fields) => Sorted(fields) && forall i | 0 <= i < |fields| :: Canonical(fields[i].value)
    case _ => true
  }

  predicate AllCanonical(fields: seq<Field>) {
    forall i | 0 <= i < |fields| :: Canonical(fields[i].value)
  }

  lemma {:induction false} MeaningKeys(fields: seq<Field>, k: string)
    ensures k in MeaningOfFields(fields) <==> HasKey(fields, k)
  {
    if fields != [] {
      MeaningKeys(fields[1..], k);
      assert forall i | 1 <= i < |fields| :: fields[i] == fields[1..][i - 1];
    }
  }

  lemma HasKeyHead(fields: seq<Field>, k: string)
    requires fields != []
    ensures HasKey(fields, k) <==> fields[0].key == k || HasKey(fields[1..], k)
  {
    assert forall i | 1 <= i < |fields| :: fields[i] == fields[1..][i - 1];
  }

  lemma {:induction false} InsertHasKey(f: Field, fields: seq<Field>, k: string)
    ensures HasKey(Insert(f, fields), k) <==> k == f.key || HasKey(fields, k)
  {
    var r := Insert(f, fields);
    HasKeyHead(r, k);
    if fields == [] || Less(f.key, fields[0].key) {
      assert r[1..] == fields;
    } else {
      InsertHasKey(f, fields[1..], k);
      assert r[1..] == Insert(f, fields[1..]);
      HasKeyHead(fields, k);
    }
  }

  lemma SortedHead(fields: seq<Field>)
    requires fields != [] && Sorted(fields[1..])
    requires forall k | HasKey(fields[1..], k) :: Less(fields[0].key, k)
    ensures Sorted(fields)
  {
    forall i, j | 0 <= i < j < |fields| ensures Less(fields[i].key, fields[j].key) {
      assert fields[j] == fields[1..][j - 1] && HasKey(fields[1..], fields[j].key);
      if i > 0 { assert fields[i] == fields[1..][i - 1]; }
    }
  }

  lemma {:induction false} InsertSorts(f: Field, fields: seq<Field>)
    requires Sorted(fields) && !HasKey(fields, f.key)
    ensures Sorted(Insert(f, fields))
  {
    var r := Insert(f, fields);
    if fields == [] {
    } else if Less(f.key, fields[0].key) {
      assert r[1..] == fields;
      forall k | HasKey(fields, k) ensures Less(f.key, k) {
        if fields[0].key != k { LessTransitive(f.key, fields[0].key, k); }
      }
      SortedHead(r);
    } else {
      var rest := fields[1..];
      HasKeyHead(fields, f.key);
      LessTotal(f.key, fields[0].key);
      InsertSorts(f, rest);
      assert r[1..] == Insert(f, rest);
      forall k | HasKey(r[1..], k) ensures Less(r[0].key, k) {
        InsertHasKey(f, rest, k);
        if k != f.key {
          var i :| 0 <= i < |rest| && rest[i].key == k;
          assert rest[i] == fields[i + 1];
        }
      }
      SortedHead(r);
    }
  }

  lemma {:induction false} InsertMeans(f: Field, fields: seq<Field>)
    requires !HasKey(fields, f.key)
    ensures MeaningOfFields(Insert(f, fields)) == MeaningOfFields(fields)[f.key := Meaning(f.value)]
  {
    hide Less, Meaning;
    var r := Insert(f, fields);
    if fields == [] || Less(f.key, fields[0].key) {
      assert r[1..] == fields;
    } else {
      HasKeyHead(fields, f.key);
      InsertMeans(f, fields[1..]);
      assert r[1..] == Insert(f, fields[1..]);
    }
  }

  lemma {:induction false} InsertCanonical(f: Field, fields: seq<Field>)
    requires AllCanonical(fields) && Canonical(f.value)
    ensures AllCanonical(Insert(f, fields))
  {
    hide Less, Canonical;
    if fields != [] && !Less(f.key, fields[0].key) { InsertCanonical(f, fields[1..]); }
  }

  /** Sorting keys at every depth changes the order of dictionary entries and nothing else. */
  lemma {:induction false} SortKeysKeepsMeaning(v: Json)
    requires Valid(v)
    ensures Canonical(SortKeys(v)) && Same(SortKeys(v), v)
    decreases v, 1
  {
    match v
    case Arr(items) => SortInItemsKeepsMeaning(items);
    case Obj(fields) => SortFieldsKeepsMeaning(fields);
    case _ =>
  }

  lemma {:induction false} SortInItemsKeepsMeaning(items: seq<Json>)
    requires forall i | 0 <= i < |items| :: Valid(items[i])
    ensures Canonical(Arr(SortInItems(items)))
    ensures MeaningOfItems(SortInItems(items)) == MeaningOfItems(items)
    decreases items, 0
  {
    if items != [] {
      SortKeysKeepsMeaning(items[0]);
      SortInItemsKeepsMeaning(items[1..]);
      assert SortInItems(items)[1..] == SortInItems(items[1..]);
    }
  }

  lemma {:induction false} SortFieldsKeepsMeaning(fields: seq<Field>)
    requires Distinct(fields) && forall i | 0 <= i < |fields| :: Valid(fields[i].value)
    ensures Sorted(SortFields(fields)) && AllCanonical(SortFields(fields))
    ensures MeaningOfFields(SortFields(fields)) == MeaningOfFields(fields)
    decreases fields, 0
  {
    if fields != [] {
      var rest := fields[1..];
      SortKeysKeepsMeaning(fields[0].value);
      SortFieldsKeepsMeaning(rest);
      MeaningKeys(rest, fields[0].key);
      MeaningKeys(SortFields(rest), fields[0].key);
      assert !HasKey(rest, fields[0].key);
      var f := Field(fields[0].key, SortKeys(fields[0].value));
      InsertSorts(f, SortFields(rest));
      InsertMeans(f, SortFields(rest));
      InsertCanonical(f, SortFields(rest));
    }
  }

  /** A document has one canonical form. */
  lemma {:induction false} CanonicalUnique(a: Json, b: Json)
    requires Canonical(a) && Canonical(b) && Same(a, b)
    ensures a == b
    decreases a, 1
  {
    match a
    case Arr(items) => CanonicalItemsUnique(items, b.items);
    case Obj(fields) => CanonicalFieldsUnique(fields, b.fields);
    case _ =>
  }

  lemma {:induction false} CanonicalItemsUnique(a: seq<Json>, b: seq<Json>)
    requires Canonical(Arr(a)) && Canonical(Arr(b)) && MeaningOfItems(a) == MeaningOfItems(b)
    ensures a == b
    decreases a, 0
  {
    if a != [] && b != [] {
      assert MeaningOfItems(a)[0] == MeaningOfItems(b)[0];
      assert MeaningOfItems(a)[1..] == MeaningOfItems(a[1..]);
      assert MeaningOfItems(b)[1..] == MeaningOfItems(b[1..]);
      CanonicalUnique(a[0], b[0]);
      CanonicalItemsUnique(a[1..], b[1..]);
    } else {
      assert |MeaningOfItems(a)| == |a| && |MeaningOfItems(b)| == |b|;
    }
  }

  lemma {:induction false} CanonicalFieldsUnique(a: seq<Field>, b: seq<Field>)
    requires Canonical(Obj(a)) && Canonical(Obj(b)) && MeaningOfFields(a) == MeaningOfFields(b)
    ensures a == b
    decreases a, 0
  {
    if a == [] {
      NoKeysNoFields(b);
    } else {
      MeaningKeys(a, a[0].key);
      MeaningKeys(b, a[0].key);
      FirstKeysAgree(a, b);
      HeadAndTail(a);
      HeadAndTail(b);
      CanonicalTail(a);
      CanonicalTail(b);
      CanonicalUnique(a[0].value, b[0].value);
      CanonicalFieldsUnique(a[1..], b[1..]);
      assert a == [a[0]] + a[1..] && b == [b[0]] + b[1..];
    }
  }

  lemma CanonicalTail(a: seq<Field>)
    requires a != [] && Canonical(Obj(a))
    ensures Canonical(a[0].value) && Canonical(Obj(a[1..]))
  {
    var rest := a[1..];
    assert forall i | 0 <= i < |rest| :: rest[i] == a[i + 1];
    assert Sorted(rest) by {
      assert forall i, j | 0 <= i < j < |rest| :: Less(a[i + 1].key, a[j + 1].key) ==> Less(rest[i].key, rest[j].key);
    }
    assert AllCanonical(rest);
  }

  /** The first field of a sorted dictionary and the others, seen in its meaning. */
  lemma HeadAndTail(a: seq<Field>)
    requires a != [] && Sorted(a)
    ensures a[0].key in MeaningOfFields(a) && MeaningOfFields(a)[a[0].key] == Meaning(a[0].value)
    ensures MeaningOfFields(a[1..]) == MeaningOfFields(a) - {a[0].key}
  {
    hide Less, Meaning;
    HeadKeyNotInTail(a);
  }

  lemma NoKeysNoFields(b: seq<Field>)
    requires MeaningOfFields(b) == map[]
    ensures b == []
  {
    if b != [] { MeaningKeys(b, b[0].key); }
  }

  lemma HeadKeyNotInTail(a: seq<Field>)
    requires a != [] && Sorted(a)
    ensures a[0].key !in MeaningOfFields(a[1..])
  {
    MeaningKeys(a[1..], a[0].key);
    if HasKey(a[1..], a[0].key) {
      var i :| 0 <= i < |a| - 1 && a[1..][i].key == a[0].key;
      assert a[1..][i] == a[i + 1];
      LessIrreflexive(a[0].key);
    }
  }

  lemma FirstKeysAgree(a: seq<Field>, b: seq<Field>)
    requires Sorted(a) && Sorted(b) && a != [] && b != []
    requires MeaningOfFields(a).Keys == MeaningOfFields(b).Keys
    ensures a[0].key == b[0].key
  {
    MeaningKeys(a, a[0].key);
    MeaningKeys(b, a[0].key);
    MeaningKeys(b, b[0].key);
    MeaningKeys(a, b[0].key);
    assert a[0].key in MeaningOfFields(b).Keys && b[0].key in MeaningOfFields(a).Keys;
    var j :| 0 <= j < |b| && b[j].key == a[0].key;
    var i :| 0 <= i < |a| && a[i].key == b[0].key;
    if i != 0 && j != 0 {
      LessTransitive(a[0].key, b[0].key, a[0].key);
      LessIrreflexive(a[0].key);
    }
  }

  /** Sorting keys identifies exactly the documents that differ only in key order. */
  lemma SortKeysDecidesSame(a: Json, b: Json)
    requires Valid(a) && Valid(b)
    ensures SortKeys(a) == SortKeys(b) <==> Same(a, b)
  {
    SortKeysKeepsMeaning(a);
    SortKeysKeepsMeaning(b);
    if Same(a, b) { CanonicalUnique(SortKeys(a), SortKeys(b)); }
  }
}
