/** Canonical JSON: the keys of every object sorted. Two values print to the same canonical text
    exactly when they mean the same, and the text reads as a value with that meaning. */
module CanonicalJson {
  import opened JsonText

  // ---------------------------------------------------------------- sorted keys

  /** Strings in the order of their code points. */
  predicate Before(s: PyStr, t: PyStr) {
    if s == [] then t != []
    else t != [] && (s[0] < t[0] || (s[0] == t[0] && Before(s[1..], t[1..])))
  }

  lemma {:induction false} BeforeIsTotal(s: PyStr, t: PyStr)
    ensures s == t || Before(s, t) || Before(t, s)
    ensures !Before(s, s) && !(Before(s, t) && Before(t, s))
  {
    if s != [] {
      BeforeIsTotal(s[1..], s[1..]);
      if t != [] {
        BeforeIsTotal(s[1..], t[1..]);
        assert s == [s[0]] + s[1..] && t == [t[0]] + t[1..];
      }
    }
  }

  lemma {:induction false} BeforeIsTransitive(s: PyStr, t: PyStr, u: PyStr)
    requires Before(s, t) && Before(t, u)
    ensures Before(s, u)
  {
    if s != [] && s[0] == t[0] && t[0] == u[0] {
      BeforeIsTransitive(s[1..], t[1..], u[1..]);
    }
  }

  /** At the first place where they differ, the earlier one has the smaller code point or ends. */
  lemma {:induction false} BeforeIff(s: PyStr, t: PyStr)
    ensures Before(s, t) <==> exists n :: DiffersAt(s, t, n)
  {
    if s == [] {
      assert t != [] ==> DiffersAt(s, t, 0);
    } else if t != [] {
      BeforeIff(s[1..], t[1..]);
      if s[0] < t[0] {
        assert DiffersAt(s, t, 0);
      } else if Before(s, t) {
        var n :| DiffersAt(s[1..], t[1..], n);
        DiffersLater(s, t, n + 1);
      }
      forall n | DiffersAt(s, t, n) ensures Before(s, t) {
        if n > 0 {
          DiffersLater(s, t, n);
        }
      }
    }
  }

  predicate DiffersAt(s: PyStr, t: PyStr, n: int) {
    0 <= n <= |s| && n < |t| && s[..n] == t[..n] && (n < |s| ==> s[n] < t[n])
  }

  lemma DiffersLater(s: PyStr, t: PyStr, n: nat)
    requires s != [] && t != [] && n > 0
    ensures DiffersAt(s, t, n) <==> s[0] == t[0] && DiffersAt(s[1..], t[1..], n - 1)
  {
    if n <= |s| && n <= |t| {
      assert s[..n] == [s[0]] + s[1..][..n - 1] && t[..n] == [t[0]] + t[1..][..n - 1];
      assert s[..n][0] == s[0] && t[..n][0] == t[0];
      assert s[..n][1..] == s[1..][..n - 1] && t[..n][1..] == t[1..][..n - 1];
    }
  }

  function Insert(key: PyStr, value: Json, fields: Fields): Fields {
    if fields.NoFields? || Before(key, fields.key) then Field(key, value, fields)
    else Field(fields.key, fields.value, Insert(key, value, fields.rest))
  }

  /** Every object of a value with its fields sorted by key. */
  function Canon(j: Json): Json {
    match j
    case Arr(items) => Arr(CanonItems(items))
    case Obj(fields) => Obj(SortFields(fields))
    case _ => j
  }

  function CanonItems(items: Items): Items {
    match items
    case NoItems => NoItems
    case Item(head, tail) => Item(Canon(head), CanonItems(tail))
  }

  function SortFields(fields: Fields): Fields {
    match fields
    case NoFields => NoFields
    case Field(key, value, rest) => Insert(key, Canon(value), SortFields(rest))
  }

  /** `_canonical_json`. */
  function CanonicalText(j: Json): string {
    TextThen(Canon(j), "")
  }

  // ---------------------------------------------------------------- what a value means

  /** A value without any order of fields. */
  datatype Value =
    | VNull
    | VBool(b: bool)
    | VNum(n: int)
    | VStr(s: PyStr)
    | VArr(items: seq<Value>)
    | VObj(fields: map<PyStr, Value>)

  ghost function Meaning(j: Json): Value {
    match j
    case Null => VNull
    case Bool(b) => VBool(b)
    case Num(n) => VNum(n)
    case Str(s) => VStr(s)
    case Arr(items) => VArr(ItemsMeaning(items))
    case Obj(fields) => VObj(FieldsMeaning(fields))
  }

  ghost function ItemsMeaning(items: Items): seq<Value> {
    match items
    case NoItems => []
    case Item(head, tail) => [Meaning(head)] + ItemsMeaning(tail)
  }

  ghost function FieldsMeaning(fields: Fields): map<PyStr, Value> {
    match fields
    case NoFields => map[]
    case Field(key, value, rest) => FieldsMeaning(rest)[key := Meaning(value)]
  }

  /** No object repeats a key. */
  ghost predicate UniqueKeys(j: Json) {
    match j
    case Arr(items) => UniqueKeysIn(items)
    case Obj(fields) => UniqueFields(fields)
    case _ => true
  }

  ghost predicate UniqueKeysIn(items: Items) {
    items.Item? ==> UniqueKeys(items.head) && UniqueKeysIn(items.tail)
  }

  ghost predicate UniqueFields(fields: Fields) {
    fields.Field? ==> fields.key !in FieldsMeaning(fields.rest) && UniqueKeys(fields.value) && UniqueFields(fields.rest)
  }

  ghost function ByKey(fields: Fields): map<PyStr, Json> {
    match fields
    case NoFields => map[]
    case Field(key, value, rest) => ByKey(rest)[key := value]
  }

  ghost predicate Sorted(fields: Fields) {
    fields.Field? ==> Sorted(fields.rest) && forall k :: k in ByKey(fields.rest) ==> Before(fields.key, k)
  }

  lemma {:induction false} InsertSorted(key: PyStr, value: Json, fields: Fields)
    requires Sorted(fields) && key !in ByKey(fields)
    ensures Sorted(Insert(key, value, fields)) && ByKey(Insert(key, value, fields)) == ByKey(fields)[key := value]
  {
    hide Before;
    if fields.Field? {
      BeforeIsTotal(key, fields.key);
      if Before(key, fields.key) {
        forall k | k in ByKey(fields) ensures Before(key, k) {
          if k != fields.key {
            BeforeIsTransitive(key, fields.key, k);
          }
        }
      } else {
        InsertSorted(key, value, fields.rest);
      }
    }
  }

  lemma {:induction false} SameKeys(fields: Fields)
    ensures ByKey(fields).Keys == FieldsMeaning(fields).Keys
    ensures forall k :: k in ByKey(fields) ==> Meaning(ByKey(fields)[k]) == FieldsMeaning(fields)[k]
  {
    if fields.Field? {
      SameKeys(fields.rest);
    }
  }

  lemma {:induction false} SortedFields(fields: Fields)
    requires UniqueFields(fields)
    ensures Sorted(SortFields(fields))
    ensures ByKey(SortFields(fields)).Keys == ByKey(fields).Keys
    ensures forall k :: k in ByKey(fields) ==> ByKey(SortFields(fields))[k] == Canon(ByKey(fields)[k])
  {
    if fields.Field? {
      SortedFields(fields.rest);
      SameKeys(fields.rest);
      InsertSorted(fields.key, Canon(fields.value), SortFields(fields.rest));
    }
  }

  /** Sorted fields are determined by what each key holds. */
  lemma {:induction false} SortedIsUnique(a: Fields, b: Fields)
    requires Sorted(a) && Sorted(b) && ByKey(a) == ByKey(b)
    ensures a == b
  {
    assert b.Field? ==> b.key in ByKey(b);
    if a.Field? {
      assert a.key in ByKey(b);
      assert b.Field? && b.key in ByKey(a);
      BeforeIsTotal(a.key, b.key);
      BeforeIsTotal(a.key, a.key);
      assert a.key == b.key;
      assert ByKey(a.rest) == ByKey(a) - {a.key} == ByKey(b.rest) by {
        BeforeIsTotal(b.key, b.key);
        assert a.key !in ByKey(a.rest) && b.key !in ByKey(b.rest);
      }
      SortedIsUnique(a.rest, b.rest);
    }
  }

  function Size(j: Json): nat {
    match j
    case Arr(items) => 1 + ItemsSize(items)
    case Obj(fields) => 1 + FieldsSize(fields)
    case _ => 0
  }

  function ItemsSize(items: Items): nat {
    match items
    case NoItems => 0
    case Item(head, tail) => 1 + Size(head) + ItemsSize(tail)
  }

  function FieldsSize(fields: Fields): nat {
    match fields
    case NoFields => 0
    case Field(_, value, rest) => 1 + Size(value) + FieldsSize(rest)
  }

  lemma {:induction false} HeldIsSmaller(fields: Fields, k: PyStr)
    requires k in ByKey(fields) && UniqueFields(fields)
    ensures Size(ByKey(fields)[k]) < FieldsSize(fields) && UniqueKeys(ByKey(fields)[k])
  {
    if k != fields.key {
      HeldIsSmaller(fields.rest, k);
    }
  }

  /** Values that mean the same have the same canonical form, in whatever order their fields stand. */
  lemma {:induction false} SameMeaningSameCanon(a: Json, b: Json)
    requires UniqueKeys(a) && UniqueKeys(b) && Meaning(a) == Meaning(b)
    ensures Canon(a) == Canon(b)
    decreases Size(a)
  {
    match a
    case Arr(items) =>
      SameMeaningSameItems(items, b.items);
    case Obj(fields) =>
      SortedFields(fields);
      SortedFields(b.fields);
      SameKeys(fields);
      SameKeys(b.fields);
      forall k | k in ByKey(fields) ensures Canon(ByKey(fields)[k]) == Canon(ByKey(b.fields)[k]) {
        HeldIsSmaller(fields, k);
        HeldIsSmaller(b.fields, k);
        SameMeaningSameCanon(ByKey(fields)[k], ByKey(b.fields)[k]);
      }
      SortedIsUnique(SortFields(fields), SortFields(b.fields));
    case _ =>
  }

  lemma {:induction false} SameMeaningSameItems(a: Items, b: Items)
    requires UniqueKeysIn(a) && UniqueKeysIn(b) && ItemsMeaning(a) == ItemsMeaning(b)
    ensures CanonItems(a) == CanonItems(b)
    decreases ItemsSize(a)
  {
    if a.Item? && b.Item? {
      assert ItemsMeaning(a)[0] == Meaning(a.head) && ItemsMeaning(b)[0] == Meaning(b.head);
      assert ItemsMeaning(a)[1..] == ItemsMeaning(a.tail) && ItemsMeaning(b)[1..] == ItemsMeaning(b.tail);
      SameMeaningSameCanon(a.head, b.head);
      SameMeaningSameItems(a.tail, b.tail);
    }
  }

  lemma {:induction false} InsertMeaning(key: PyStr, value: Json, fields: Fields)
    requires key !in FieldsMeaning(fields)
    ensures FieldsMeaning(Insert(key, value, fields)) == FieldsMeaning(fields)[key := Meaning(value)]
    ensures NoPairs(key) && CleanStrings(value) && CleanFields(fields) ==> CleanFields(Insert(key, value, fields))
  {
    hide Before;
    if fields.Field? && !Before(key, fields.key) {
      InsertMeaning(key, value, fields.rest);
    }
  }

  /** Sorting the fields changes neither the meaning nor the strings. */
  lemma {:induction false} CanonKeepsMeaning(j: Json)
    requires UniqueKeys(j)
    ensures Meaning(Canon(j)) == Meaning(j) && (CleanStrings(j) ==> CleanStrings(Canon(j)))
    decreases j
  {
    match j
    case Arr(items) => CanonItemsKeepMeaning(items);
    case Obj(fields) => SortKeepsMeaning(fields);
    case _ =>
  }

  lemma {:induction false} CanonItemsKeepMeaning(items: Items)
    requires UniqueKeysIn(items)
    ensures ItemsMeaning(CanonItems(items)) == ItemsMeaning(items) && (CleanItems(items) ==> CleanItems(CanonItems(items)))
    decreases items
  {
    if items.Item? {
      CanonKeepsMeaning(items.head);
      CanonItemsKeepMeaning(items.tail);
    }
  }

  lemma {:induction false} SortKeepsMeaning(fields: Fields)
    requires UniqueFields(fields)
    ensures FieldsMeaning(SortFields(fields)) == FieldsMeaning(fields) && (CleanFields(fields) ==> CleanFields(SortFields(fields)))
    decreases fields
  {
    if fields.Field? {
      CanonKeepsMeaning(fields.value);
      SortKeepsMeaning(fields.rest);
      InsertMeaning(fields.key, Canon(fields.value), SortFields(fields.rest));
    }
  }

  /** The canonical text is the same for two values exactly when they mean the same: it does not
      depend on the order of fields and loses nothing. */
  lemma CanonicalTextIsExact(a: Json, b: Json)
    requires UniqueKeys(a) && UniqueKeys(b)
    ensures Meaning(a) == Meaning(b) ==> CanonicalText(a) == CanonicalText(b)
    ensures CleanStrings(a) && CleanStrings(b) && CanonicalText(a) == CanonicalText(b) ==> Meaning(a) == Meaning(b)
  {
    if Meaning(a) == Meaning(b) {
      SameMeaningSameCanon(a, b);
    }
    if CleanStrings(a) && CleanStrings(b) && CanonicalText(a) == CanonicalText(b) {
      CanonKeepsMeaning(a);
      CanonKeepsMeaning(b);
      Unambiguous(Canon(a), Canon(b), "", "");
    }
  }

  /** Every object has its keys in ascending order. */
  ghost predicate AllSorted(j: Json) {
    match j
    case Arr(items) => AllSortedIn(items)
    case Obj(fields) => Sorted(fields) && AllSortedValues(fields)
    case _ => true
  }

  ghost predicate AllSortedIn(items: Items) {
    items.Item? ==> AllSorted(items.head) && AllSortedIn(items.tail)
  }

  ghost predicate AllSortedValues(fields: Fields) {
    fields.Field? ==> AllSorted(fields.value) && AllSortedValues(fields.rest)
  }

  lemma {:induction false} CanonIsSorted(j: Json)
    requires UniqueKeys(j)
    ensures AllSorted(Canon(j))
    decreases j
  {
    match j
    case Arr(items) => CanonItemsAreSorted(items);
    case Obj(fields) =>
      SortedFields(fields);
      CanonValuesAreSorted(fields);
    case _ =>
  }

  lemma {:induction false} CanonItemsAreSorted(items: Items)
    requires UniqueKeysIn(items)
    ensures AllSortedIn(CanonItems(items))
    decreases items
  {
    if items.Item? {
      CanonIsSorted(items.head);
      CanonItemsAreSorted(items.tail);
    }
  }

  lemma {:induction false} CanonValuesAreSorted(fields: Fields)
    requires UniqueFields(fields)
    ensures AllSortedValues(SortFields(fields))
    decreases fields
  {
    if fields.Field? {
      CanonIsSorted(fields.value);
      CanonValuesAreSorted(fields.rest);
      InsertedValuesAreSorted(fields.key, Canon(fields.value), SortFields(fields.rest));
    }
  }

  lemma {:induction false} InsertedValuesAreSorted(key: PyStr, value: Json, fields: Fields)
    requires AllSorted(value) && AllSortedValues(fields)
    ensures AllSortedValues(Insert(key, value, fields))
  {
    if fields.Field? && !Before(key, fields.key) {
      InsertedValuesAreSorted(key, value, fields.rest);
    }
  }

  /** The canonical text is JSON text that means what the value means, with the keys of every
      object in ascending order. */
  lemma CanonicalTextReads(j: Json)
    requires UniqueKeys(j) && CleanStrings(j)
    ensures var r := ReadText(CanonicalText(j)); r.Some? && Meaning(r.value) == Meaning(j) && AllSorted(r.value)
  {
    CanonKeepsMeaning(j);
    CanonIsSorted(j);
    ValueReads(Canon(j), "");
  }
}
