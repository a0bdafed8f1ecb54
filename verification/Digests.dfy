/** The texts behind the two record digests: completeness records and commit payloads. The
    digest itself is a fixed function of the text. */
module Digests {
  import opened Wrappers
  import opened JsonText
  import opened CanonicalJson

  // ---------------------------------------------------------------- completeness records

  datatype SourceId = IntId(n: int) | StrId(s: PyStr)

  datatype PageRef = PageRef(
    refId: PyStr,
    sourceKind: PyStr,
    sourceId: SourceId,
    sha256: PyStr,
    start: Option<int>,
    end: Option<int>,
    itemCount: Option<int>,
    bytes: Option<int>,
    reason: PyStr)

  datatype Completeness = Completeness(
    state: PyStr,
    authority: PyStr,
    completeFor: seq<PyStr>,
    missingRequiredRefs: seq<PageRef>,
    pageRefs: seq<PageRef>,
    previewRef: Option<PageRef>,
    unavailableReason: Option<PyStr>)

  function OptNum(n: Option<int>): Json {
    match n
    case None => Null
    case Some(value) => Num(value)
  }

  function OptStr(s: Option<PyStr>): Json {
    match s
    case None => Null
    case Some(value) => Str(value)
  }

  function IdJson(id: SourceId): Json {
    match id
    case IntId(n) => Num(n)
    case StrId(s) => Str(s)
  }

  /** A dictionary of literal keys, in insertion order. */
  function Dict(keys: seq<string>, values: seq<Json>): Fields
    requires |keys| == |values|
  {
    if keys == [] then NoFields else Field(Codes(keys[0]), values[0], Dict(keys[1..], values[1..]))
  }

  const PAGE_KEYS: seq<string> := ["ref_id", "source_kind", "source_id", "sha256", "start", "end", "item_count", "bytes", "reason"]

  const RECORD_KEYS: seq<string> :=
    ["state", "authority", "complete_for", "missing_required_refs", "page_refs", "preview_ref", "unavailable_reason"]

  function PageValues(p: PageRef): seq<Json> {
    [Str(p.refId), Str(p.sourceKind), IdJson(p.sourceId), Str(p.sha256), OptNum(p.start), OptNum(p.end),
     OptNum(p.itemCount), OptNum(p.bytes), Str(p.reason)]
  }

  /** `_page_ref_digest_payload`. */
  function PageJson(p: PageRef): Json {
    Obj(Dict(PAGE_KEYS, PageValues(p)))
  }

  function Strings(ss: seq<PyStr>): Items {
    if ss == [] then NoItems else Item(Str(ss[0]), Strings(ss[1..]))
  }

  function Pages(ps: seq<PageRef>): Items {
    if ps == [] then NoItems else Item(PageJson(ps[0]), Pages(ps[1..]))
  }

  function RecordValues(r: Completeness): seq<Json> {
    [Str(r.state), Str(r.authority), Arr(Strings(r.completeFor)), Arr(Pages(r.missingRequiredRefs)), Arr(Pages(r.pageRefs)),
     (match r.previewRef case None => Null case Some(p) => PageJson(p)), OptStr(r.unavailableReason)]
  }

  function RecordJson(r: Completeness): Json {
    Obj(Dict(RECORD_KEYS, RecordValues(r)))
  }

  /** The text digested by `compute_completeness_digest`. */
  function CompletenessText(r: Completeness): string {
    CanonicalText(RecordJson(r))
  }

  ghost predicate CleanPage(p: PageRef) {
    && NoPairs(p.refId) && NoPairs(p.sourceKind) && NoPairs(p.sha256) && NoPairs(p.reason)
    && (p.sourceId.StrId? ==> NoPairs(p.sourceId.s))
  }

  /** No string of the record holds a surrogate pair as two code points. */
  ghost predicate CleanRecord(r: Completeness) {
    && NoPairs(r.state) && NoPairs(r.authority) && (forall s :: s in r.completeFor ==> NoPairs(s))
    && (forall p :: p in r.missingRequiredRefs + r.pageRefs ==> CleanPage(p))
    && (r.previewRef.Some? ==> CleanPage(r.previewRef.value))
    && (r.unavailableReason.Some? ==> NoPairs(r.unavailableReason.value))
  }

  // ---------------------------------------------------------------- dictionaries of literal keys

  ghost predicate AsciiKeys(keys: seq<string>) {
    forall i, j :: 0 <= i < |keys| && 0 <= j < |keys[i]| ==> keys[i][j] as int < 128
  }

  ghost predicate DistinctKeys(keys: seq<string>) {
    forall i, j :: 0 <= i < j < |keys| ==> keys[i] != keys[j]
  }

  lemma LaterKeysDiffer(keys: seq<string>, i: nat)
    requires DistinctKeys(keys) && 1 <= i < |keys|
    ensures Codes(keys[i]) != Codes(keys[0])
  {
    if Codes(keys[i]) == Codes(keys[0]) {
      CodesInjective(keys[0], keys[i]);
    }
  }

  lemma {:induction false} DictKeys(keys: seq<string>, values: seq<Json>, k: PyStr)
    requires |keys| == |values| && k in FieldsMeaning(Dict(keys, values))
    ensures exists i :: 0 <= i < |keys| && k == Codes(keys[i])
  {
    if k != Codes(keys[0]) {
      DictKeys(keys[1..], values[1..], k);
      var i :| 0 <= i < |keys[1..]| && k == Codes(keys[1..][i]);
      assert keys[i + 1] == keys[1..][i];
    }
  }

  lemma {:induction false} DictAt(keys: seq<string>, values: seq<Json>, i: nat)
    requires |keys| == |values| && DistinctKeys(keys) && i < |keys|
    ensures Codes(keys[i]) in FieldsMeaning(Dict(keys, values))
    ensures FieldsMeaning(Dict(keys, values))[Codes(keys[i])] == Meaning(values[i])
  {
    if i > 0 {
      LaterKeysDiffer(keys, i);
      DictAt(keys[1..], values[1..], i - 1);
    }
  }

  lemma {:induction false} DictIsUnique(keys: seq<string>, values: seq<Json>)
    requires |keys| == |values| && DistinctKeys(keys) && forall i :: 0 <= i < |values| ==> UniqueKeys(values[i])
    ensures UniqueFields(Dict(keys, values))
  {
    if keys != [] {
      DictIsUnique(keys[1..], values[1..]);
      if Codes(keys[0]) in FieldsMeaning(Dict(keys[1..], values[1..])) {
        DictKeys(keys[1..], values[1..], Codes(keys[0]));
        var i :| 0 <= i < |keys[1..]| && Codes(keys[0]) == Codes(keys[1..][i]);
        LaterKeysDiffer(keys, i + 1);
        assert false;
      }
    }
  }

  lemma {:induction false} DictIsClean(keys: seq<string>, values: seq<Json>)
    requires |keys| == |values| && AsciiKeys(keys) && forall i :: 0 <= i < |values| ==> CleanStrings(values[i])
    ensures CleanFields(Dict(keys, values))
  {
    if keys != [] {
      assert NoPairs(Codes(keys[0]));
      DictIsClean(keys[1..], values[1..]);
    }
  }

  lemma PageKeysDistinct()
    ensures DistinctKeys(PAGE_KEYS) && AsciiKeys(PAGE_KEYS)
  {
    PageKeysAreAscii();
    PageKeysDiffer(PAGE_KEYS);
  }

  lemma PageKeysAreAscii()
    ensures AsciiKeys(PAGE_KEYS)
  {
  }

  lemma PageKeysDiffer(keys: seq<string>)
    requires keys == PAGE_KEYS
    ensures DistinctKeys(keys)
  {
    assert |keys| == 9;
    assert |keys[1]| == 11 && |keys[2]| == 9 && |keys[5]| == 3 && |keys[6]| == 10;
    assert |keys[0]| == |keys[3]| == |keys[8]| == 6 && |keys[4]| == |keys[7]| == 5;
    assert keys[0][2] == 'f' && keys[3][2] == 'a' && keys[8][2] == 'a' && keys[3][0] == 's' && keys[8][0] == 'r';
    assert keys[4][0] == 's' && keys[7][0] == 'b';
  }

  lemma RecordKeysDistinct()
    ensures DistinctKeys(RECORD_KEYS) && AsciiKeys(RECORD_KEYS)
  {
    RecordKeysAreAscii();
    assert RECORD_KEYS[1][0] == 'a' && RECORD_KEYS[4][0] == 'p';
  }

  lemma RecordKeysAreAscii()
    ensures AsciiKeys(RECORD_KEYS)
  {
  }

  // ---------------------------------------------------------------- the record can be read off its text

  lemma PageIsWellFormed(p: PageRef)
    ensures UniqueKeys(PageJson(p)) && (CleanPage(p) ==> CleanStrings(PageJson(p)))
  {
    PageKeysDistinct();
    var v := PageValues(p);
    assert forall i :: 0 <= i < |v| ==> !v[i].Arr? && !v[i].Obj?;
    DictIsUnique(PAGE_KEYS, v);
    if CleanPage(p) {
      DictIsClean(PAGE_KEYS, v);
    }
  }

  lemma {:induction false} StringsWellFormed(s: seq<PyStr>)
    ensures UniqueKeysIn(Strings(s)) && ((forall t :: t in s ==> NoPairs(t)) ==> CleanItems(Strings(s)))
  {
    if s != [] {
      StringsWellFormed(s[1..]);
    }
  }

  lemma {:induction false} PagesWellFormed(s: seq<PageRef>)
    ensures UniqueKeysIn(Pages(s)) && ((forall p :: p in s ==> CleanPage(p)) ==> CleanItems(Pages(s)))
  {
    if s != [] {
      PageIsWellFormed(s[0]);
      PagesWellFormed(s[1..]);
    }
  }

  lemma RecordValuesUnique(r: Completeness)
    ensures forall i :: 0 <= i < 7 ==> UniqueKeys(RecordValues(r)[i])
  {
    StringsWellFormed(r.completeFor);
    PagesWellFormed(r.missingRequiredRefs);
    PagesWellFormed(r.pageRefs);
    if r.previewRef.Some? {
      PageIsWellFormed(r.previewRef.value);
    }
    hide PageJson, Strings, Pages;
    var v := RecordValues(r);
    assert UniqueKeys(v[0]) && UniqueKeys(v[1]) && UniqueKeys(v[2]) && UniqueKeys(v[3]) && UniqueKeys(v[4]);
    assert UniqueKeys(v[5]) && UniqueKeys(v[6]);
  }

  lemma RecordValuesClean(r: Completeness)
    requires CleanRecord(r)
    ensures forall i :: 0 <= i < 7 ==> CleanStrings(RecordValues(r)[i])
  {
    StringsWellFormed(r.completeFor);
    PagesWellFormed(r.missingRequiredRefs);
    PagesWellFormed(r.pageRefs);
    if r.previewRef.Some? {
      PageIsWellFormed(r.previewRef.value);
    }
    hide PageJson, Strings, Pages, CleanPage, NoPairs;
    var v := RecordValues(r);
    assert CleanStrings(v[0]) && CleanStrings(v[1]) && CleanStrings(v[2]) && CleanStrings(v[3]) && CleanStrings(v[4]);
    assert CleanStrings(v[5]) && CleanStrings(v[6]);
  }

  lemma RecordIsWellFormed(r: Completeness)
    ensures UniqueKeys(RecordJson(r)) && (CleanRecord(r) ==> CleanStrings(RecordJson(r)))
  {
    RecordKeysDistinct();
    RecordValuesUnique(r);
    hide CleanRecord, DistinctKeys, AsciiKeys;
    DictIsUnique(RECORD_KEYS, RecordValues(r));
    if CleanRecord(r) {
      RecordValuesClean(r);
      DictIsClean(RECORD_KEYS, RecordValues(r));
    }
  }

  // ---------------------------------------------------------------- what the texts say

  /** What an object holds under a key. */
  ghost function At(v: Value, key: string): Option<Value> {
    if v.VObj? && Codes(key) in v.fields then Some(v.fields[Codes(key)]) else None
  }

  ghost predicate HasKeys(v: Value, keys: seq<string>) {
    v.VObj? && (forall k :: k in v.fields ==> exists i :: 0 <= i < |keys| && k == Codes(keys[i]))
  }

  ghost function NumOrNull(n: Option<int>): Value {
    if n.Some? then VNum(n.value) else VNull
  }

  /** An object with a page's nine values under their names, and no other. */
  ghost predicate SaysPage(v: Value, p: PageRef) {
    && HasKeys(v, ["ref_id", "source_kind", "source_id", "sha256", "start", "end", "item_count", "bytes", "reason"])
    && At(v, "ref_id") == Some(VStr(p.refId))
    && At(v, "source_kind") == Some(VStr(p.sourceKind))
    && At(v, "source_id") == Some(if p.sourceId.IntId? then VNum(p.sourceId.n) else VStr(p.sourceId.s))
    && At(v, "sha256") == Some(VStr(p.sha256))
    && At(v, "start") == Some(NumOrNull(p.start))
    && At(v, "end") == Some(NumOrNull(p.end))
    && At(v, "item_count") == Some(NumOrNull(p.itemCount))
    && At(v, "bytes") == Some(NumOrNull(p.bytes))
    && At(v, "reason") == Some(VStr(p.reason))
  }

  ghost predicate SaysPages(v: Option<Value>, ps: seq<PageRef>) {
    v.Some? && v.value.VArr? && |v.value.items| == |ps| && forall i :: 0 <= i < |ps| ==> SaysPage(v.value.items[i], ps[i])
  }

  ghost predicate SaysStrings(v: Option<Value>, ss: seq<PyStr>) {
    v.Some? && v.value.VArr? && |v.value.items| == |ss| && forall i :: 0 <= i < |ss| ==> v.value.items[i] == VStr(ss[i])
  }

  ghost predicate SaysPageOrNull(v: Option<Value>, p: Option<PageRef>) {
    v.Some? && if p.Some? then SaysPage(v.value, p.value) else v.value == VNull
  }

  ghost function StrOrNull(s: Option<PyStr>): Value {
    if s.Some? then VStr(s.value) else VNull
  }

  /** An object with a record's seven values under their names, and no other. */
  ghost predicate SaysRecord(v: Value, r: Completeness) {
    && HasKeys(v, ["state", "authority", "complete_for", "missing_required_refs", "page_refs", "preview_ref", "unavailable_reason"])
    && At(v, "state") == Some(VStr(r.state))
    && At(v, "authority") == Some(VStr(r.authority))
    && SaysStrings(At(v, "complete_for"), r.completeFor)
    && SaysPages(At(v, "missing_required_refs"), r.missingRequiredRefs)
    && SaysPages(At(v, "page_refs"), r.pageRefs)
    && SaysPageOrNull(At(v, "preview_ref"), r.previewRef)
    && At(v, "unavailable_reason") == Some(StrOrNull(r.unavailableReason))
  }

  lemma DictSays(keys: seq<string>, values: seq<Json>)
    requires |keys| == |values| && DistinctKeys(keys)
    ensures var v := Meaning(Obj(Dict(keys, values)));
      HasKeys(v, keys) && forall i :: 0 <= i < |keys| ==> At(v, keys[i]) == Some(Meaning(values[i]))
  {
    var v := Meaning(Obj(Dict(keys, values)));
    forall k | k in v.fields ensures exists i :: 0 <= i < |keys| && k == Codes(keys[i]) {
      DictKeys(keys, values, k);
    }
    forall i | 0 <= i < |keys| ensures At(v, keys[i]) == Some(Meaning(values[i])) {
      DictAt(keys, values, i);
    }
  }

  lemma PageKeyNames(keys: seq<string>)
    requires keys == PAGE_KEYS
    ensures keys[0] == "ref_id" && keys[1] == "source_kind" && keys[2] == "source_id" && keys[3] == "sha256"
    ensures keys[4] == "start" && keys[5] == "end" && keys[6] == "item_count" && keys[7] == "bytes" && keys[8] == "reason"
    ensures |keys| == 9
  {
  }

  /** The values of a page by the places of their names. */
  ghost predicate SaysInOrder(v: Value, p: PageRef, keys: seq<string>)
    requires |keys| == 9
  {
    && HasKeys(v, keys)
    && At(v, keys[0]) == Some(VStr(p.refId)) && At(v, keys[1]) == Some(VStr(p.sourceKind))
    && At(v, keys[2]) == Some(if p.sourceId.IntId? then VNum(p.sourceId.n) else VStr(p.sourceId.s))
    && At(v, keys[3]) == Some(VStr(p.sha256))
    && At(v, keys[4]) == Some(NumOrNull(p.start)) && At(v, keys[5]) == Some(NumOrNull(p.end))
    && At(v, keys[6]) == Some(NumOrNull(p.itemCount)) && At(v, keys[7]) == Some(NumOrNull(p.bytes))
    && At(v, keys[8]) == Some(VStr(p.reason))
  }

  lemma SimpleMeanings(id: SourceId, n: Option<int>, s: PyStr)
    ensures Meaning(IdJson(id)) == if id.IntId? then VNum(id.n) else VStr(id.s)
    ensures Meaning(OptNum(n)) == NumOrNull(n)
    ensures Meaning(Str(s)) == VStr(s)
  {
  }

  lemma PageValuesMean(p: PageRef)
    ensures var values := PageValues(p);
      && Meaning(values[0]) == VStr(p.refId) && Meaning(values[1]) == VStr(p.sourceKind)
      && Meaning(values[2]) == (if p.sourceId.IntId? then VNum(p.sourceId.n) else VStr(p.sourceId.s))
      && Meaning(values[3]) == VStr(p.sha256)
      && Meaning(values[4]) == NumOrNull(p.start) && Meaning(values[5]) == NumOrNull(p.end)
      && Meaning(values[6]) == NumOrNull(p.itemCount) && Meaning(values[7]) == NumOrNull(p.bytes)
      && Meaning(values[8]) == VStr(p.reason)
  {
    SimpleMeanings(p.sourceId, p.start, p.refId);
    SimpleMeanings(p.sourceId, p.end, p.sourceKind);
    SimpleMeanings(p.sourceId, p.itemCount, p.sha256);
    SimpleMeanings(p.sourceId, p.bytes, p.reason);
    hide Meaning, NumOrNull, OptNum, IdJson;
  }

  lemma PageSaysInOrder(p: PageRef, keys: seq<string>)
    requires |keys| == 9 && DistinctKeys(keys)
    ensures SaysInOrder(Meaning(Obj(Dict(keys, PageValues(p)))), p, keys)
  {
    var values := PageValues(p);
    DictSays(keys, values);
    PageValuesMean(p);
    hide At, HasKeys, DistinctKeys, Dict, Meaning, NumOrNull, PageValues;
  }

  lemma PageSays(p: PageRef)
    ensures SaysPage(Meaning(PageJson(p)), p)
  {
    PageKeysDistinct();
    PageSaysInOrder(p, PAGE_KEYS);
    PageKeyNames(PAGE_KEYS);
    hide At, HasKeys, DistinctKeys, AsciiKeys, Dict, Meaning, NumOrNull;
  }

  lemma {:induction false} StringsSay(ss: seq<PyStr>)
    ensures SaysStrings(Some(VArr(ItemsMeaning(Strings(ss)))), ss)
  {
    if ss != [] {
      StringsSay(ss[1..]);
      assert ss == [ss[0]] + ss[1..];
    }
  }

  lemma {:induction false} PagesSay(ps: seq<PageRef>)
    ensures SaysPages(Some(VArr(ItemsMeaning(Pages(ps)))), ps)
  {
    hide SaysPage, PageJson;
    if ps != [] {
      PageSays(ps[0]);
      PagesSay(ps[1..]);
      assert ps == [ps[0]] + ps[1..];
    }
  }

  lemma RecordKeyNames(keys: seq<string>)
    requires keys == RECORD_KEYS
    ensures |keys| == 7 && keys[0] == "state" && keys[1] == "authority" && keys[2] == "complete_for"
    ensures keys[3] == "missing_required_refs" && keys[4] == "page_refs" && keys[5] == "preview_ref"
    ensures keys[6] == "unavailable_reason"
  {
  }

  lemma OptionalMeanings(s: Option<PyStr>, p: Option<PageRef>)
    ensures Meaning(OptStr(s)) == StrOrNull(s)
    ensures SaysPageOrNull(Some(Meaning(match p case None => Null case Some(page) => PageJson(page))), p)
  {
    if p.Some? {
      PageSays(p.value);
    }
    hide SaysPage, PageJson;
  }

  /** The meanings of a record's values. */
  lemma RecordValuesMean(r: Completeness)
    ensures var values := RecordValues(r);
      && Meaning(values[0]) == VStr(r.state) && Meaning(values[1]) == VStr(r.authority)
      && SaysStrings(Some(Meaning(values[2])), r.completeFor)
      && SaysPages(Some(Meaning(values[3])), r.missingRequiredRefs) && SaysPages(Some(Meaning(values[4])), r.pageRefs)
      && SaysPageOrNull(Some(Meaning(values[5])), r.previewRef) && Meaning(values[6]) == StrOrNull(r.unavailableReason)
  {
    StringsSay(r.completeFor);
    PagesSay(r.missingRequiredRefs);
    PagesSay(r.pageRefs);
    OptionalMeanings(r.unavailableReason, r.previewRef);
    hide SaysStrings, SaysPages, SaysPageOrNull, StrOrNull, Strings, Pages, OptStr, PageJson, ItemsMeaning;
  }

  lemma RecordSays(r: Completeness)
    ensures SaysRecord(Meaning(RecordJson(r)), r)
  {
    RecordKeysDistinct();
    DictSays(RECORD_KEYS, RecordValues(r));
    RecordValuesMean(r);
    RecordKeyNames(RECORD_KEYS);
    hide At, HasKeys, DistinctKeys, AsciiKeys, Dict, Meaning, SaysPages, SaysStrings, SaysPageOrNull, StrOrNull, RecordValues;
  }

  /** The text digested for a record is JSON text of an object, keys in ascending order, with the
      record's seven fields under their names, and with those of its pages. */
  lemma CompletenessTextReads(r: Completeness)
    requires CleanRecord(r)
    ensures var read := ReadText(CompletenessText(r)); read.Some? && AllSorted(read.value) && SaysRecord(Meaning(read.value), r)
  {
    RecordIsWellFormed(r);
    RecordSays(r);
    hide SaysRecord, RecordJson;
    CanonicalTextReads(RecordJson(r));
  }

  lemma PageFromMeaning(p: PageRef, q: PageRef)
    requires Meaning(PageJson(p)) == Meaning(PageJson(q))
    ensures p == q
  {
    PageSays(p);
    PageSays(q);
    SamePage(Meaning(PageJson(p)), p, q);
  }

  lemma SamePage(v: Value, p: PageRef, q: PageRef)
    requires SaysPage(v, p) && SaysPage(v, q)
    ensures p == q
  {
    hide At, HasKeys;
  }

  lemma SamePages(v: Option<Value>, ps: seq<PageRef>, qs: seq<PageRef>)
    requires SaysPages(v, ps) && SaysPages(v, qs)
    ensures ps == qs
  {
    hide SaysPage;
    forall i | 0 <= i < |ps| ensures ps[i] == qs[i] {
      SamePage(v.value.items[i], ps[i], qs[i]);
    }
  }

  lemma SameStrings(v: Option<Value>, ss: seq<PyStr>, ts: seq<PyStr>)
    requires SaysStrings(v, ss) && SaysStrings(v, ts)
    ensures ss == ts
  {
    forall i | 0 <= i < |ss| ensures ss[i] == ts[i] {
      assert v.value.items[i] == VStr(ss[i]);
    }
  }

  lemma SamePageOrNull(v: Option<Value>, p: Option<PageRef>, q: Option<PageRef>)
    requires SaysPageOrNull(v, p) && SaysPageOrNull(v, q)
    ensures p == q
  {
    if p.Some? && q.Some? {
      SamePage(v.value, p.value, q.value);
    }
    hide At;
  }

  lemma RecordFromMeaning(r: Completeness, s: Completeness)
    requires Meaning(RecordJson(r)) == Meaning(RecordJson(s))
    ensures r == s
  {
    RecordSays(r);
    RecordSays(s);
    var v := Meaning(RecordJson(r));
    hide At, HasKeys, Meaning, SaysPages, SaysStrings, SaysPageOrNull;
    SameStrings(At(v, "complete_for"), r.completeFor, s.completeFor);
    SamePages(At(v, "missing_required_refs"), r.missingRequiredRefs, s.missingRequiredRefs);
    SamePages(At(v, "page_refs"), r.pageRefs, s.pageRefs);
    SamePageOrNull(At(v, "preview_ref"), r.previewRef, s.previewRef);
  }

  /** Two completeness records are digested from the same text exactly when all seven fields
      agree, page by page and field by field, integer and string source ids kept apart. */
  lemma CompletenessTextIsExact(r: Completeness, s: Completeness)
    requires CleanRecord(r) && CleanRecord(s)
    ensures CompletenessText(r) == CompletenessText(s) <==> r == s
  {
    RecordIsWellFormed(r);
    RecordIsWellFormed(s);
    if CompletenessText(r) == CompletenessText(s) {
      CanonicalTextIsExact(RecordJson(r), RecordJson(s));
      RecordFromMeaning(r, s);
    }
  }

  // ---------------------------------------------------------------- commit payloads

  const DIGEST_KEY: PyStr := Codes("payload_sha256")

  /** `canonical_payload_dict`: the dumped payload without its own digest. */
  function DropKey(fields: Fields, key: PyStr): Fields {
    match fields
    case NoFields => NoFields
    case Field(k, v, rest) => if k == key then rest else Field(k, v, DropKey(rest, key))
  }

  /** The text digested by `compute_payload_sha256`, for the payload's dumped fields. */
  function PayloadText(payload: Fields): string {
    CanonicalText(Obj(DropKey(payload, DIGEST_KEY)))
  }

  lemma {:induction false} DroppedMeaning(fields: Fields, key: PyStr)
    requires UniqueFields(fields)
    ensures UniqueFields(DropKey(fields, key)) && FieldsMeaning(DropKey(fields, key)) == FieldsMeaning(fields) - {key}
    ensures CleanFields(fields) ==> CleanFields(DropKey(fields, key))
  {
    if fields.Field? && fields.key != key {
      DroppedMeaning(fields.rest, key);
    }
  }

  /** The payload text ignores the digest field and the order of fields, and nothing else. */
  lemma PayloadTextIsExact(p: Fields, q: Fields)
    requires UniqueFields(p) && UniqueFields(q) && CleanFields(p) && CleanFields(q)
    ensures PayloadText(p) == PayloadText(q) <==> FieldsMeaning(p) - {DIGEST_KEY} == FieldsMeaning(q) - {DIGEST_KEY}
  {
    DroppedMeaning(p, DIGEST_KEY);
    DroppedMeaning(q, DIGEST_KEY);
    CanonicalTextIsExact(Obj(DropKey(p, DIGEST_KEY)), Obj(DropKey(q, DIGEST_KEY)));
  }

  /** The payload text is JSON text of the payload's fields without the digest, in ascending order. */
  lemma PayloadTextReads(payload: Fields)
    requires UniqueFields(payload) && CleanFields(payload)
    ensures var read := ReadText(PayloadText(payload));
      read.Some? && AllSorted(read.value) && Meaning(read.value) == VObj(FieldsMeaning(payload) - {Codes("payload_sha256")})
  {
    DroppedMeaning(payload, DIGEST_KEY);
    CanonicalTextReads(Obj(DropKey(payload, DIGEST_KEY)));
  }

  /** Storing the digest in the payload leaves the text it was computed from unchanged, so that
      recomputing it after a load gives the stored value. */
  lemma DigestIsStable(payload: Fields, digest: PyStr)
    requires UniqueFields(payload)
    ensures PayloadText(payload) == PayloadText(StoreDigest(payload, digest))
    ensures UniqueFields(StoreDigest(payload, digest))
    ensures FieldsMeaning(StoreDigest(payload, digest)) == FieldsMeaning(payload)[DIGEST_KEY := VStr(digest)]
  {
    StoredMeaning(payload, digest);
    hide StoreDigest, DropKey, UniqueFields, FieldsMeaning;
    DroppedMeaning(payload, DIGEST_KEY);
    DroppedMeaning(StoreDigest(payload, digest), DIGEST_KEY);
    CanonicalTextIsExact(Obj(DropKey(payload, DIGEST_KEY)), Obj(DropKey(StoreDigest(payload, digest), DIGEST_KEY)));
  }

  /** Sets the digest field, in place or at the end. */
  function StoreDigest(payload: Fields, digest: PyStr): Fields {
    match payload
    case NoFields => Field(DIGEST_KEY, Str(digest), NoFields)
    case Field(k, v, rest) => if k == DIGEST_KEY then Field(k, Str(digest), rest) else Field(k, v, StoreDigest(rest, digest))
  }

  lemma {:induction false} StoredMeaning(payload: Fields, digest: PyStr)
    requires UniqueFields(payload)
    ensures UniqueFields(StoreDigest(payload, digest))
    ensures FieldsMeaning(StoreDigest(payload, digest)) == FieldsMeaning(payload)[DIGEST_KEY := VStr(digest)]
  {
    if payload.Field? && payload.key != DIGEST_KEY {
      StoredMeaning(payload.rest, digest);
    }
  }
}
