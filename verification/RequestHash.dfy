/**
 The canonical form hashed for a request, and its hash. `less` is the order in
 which the rebuilt objects enumerate their keys; any strict total order will do.
 `digest` stands for SHA-256, idealised as giving distinct texts distinct digests.
 */
module RequestHash {
  import opened Wrappers
  import opened Json
  import opened JsonText

  type KeyOrder = (string, string) -> bool

  ghost predicate StrictTotal(less: KeyOrder) {
    && (forall a, b :: less(a, b) || a == b || less(b, a))
    && (forall a, b :: less(a, b) ==> !less(b, a))
    && (forall a, b, c :: less(a, b) && less(b, c) ==> less(a, c))
  }

  function InsertEntry(sorted: seq<Entry>, e: Entry, less: KeyOrder): seq<Entry> {
    if sorted == [] || less(e.key, sorted[0].key) then [e] + sorted
    else [sorted[0]] + InsertEntry(sorted[1..], e, less)
  }

  function SortEntries(entries: seq<Entry>, less: KeyOrder): seq<Entry> {
    if entries == [] then [] else InsertEntry(SortEntries(entries[1..], less), entries[0], less)
  }

  /** Values are normalized before the sort here, after it in the service: the sort
      looks at keys only. */
  function NormalizeForHash(j: Json, less: KeyOrder): Json
    decreases j, 1
  {
    match j
    case Arr(items) => Arr(NormalizeItems(items, less))
    case Obj(entries) => Obj(SortEntries(NormalizeValues(entries, less), less))
    case _ => j
  }

  function NormalizeItems(items: seq<Json>, less: KeyOrder): (r: seq<Json>)
    ensures |r| == |items|
    decreases items, 0
  {
    if items == [] then [] else [NormalizeForHash(items[0], less)] + NormalizeItems(items[1..], less)
  }

  function NormalizeValues(entries: seq<Entry>, less: KeyOrder): (r: seq<Entry>)
    ensures |r| == |entries| && forall i :: 0 <= i < |entries| ==> r[i].key == entries[i].key
    decreases entries, 0
  {
    if entries == [] then []
    else [Entry(entries[0].key, NormalizeForHash(entries[0].value, less))] + NormalizeValues(entries[1..], less)
  }

  // ----- sorting

  ghost predicate SortedByKey(entries: seq<Entry>, less: KeyOrder) {
    forall i, j :: 0 <= i < j < |entries| ==> less(entries[i].key, entries[j].key)
  }

  lemma {:induction false} InsertSorts(s: seq<Entry>, e: Entry, less: KeyOrder)
    requires StrictTotal(less) && SortedByKey(s, less) && forall i :: 0 <= i < |s| ==> s[i].key != e.key
    ensures SortedByKey(InsertEntry(s, e, less), less)
    ensures forall x :: x in InsertEntry(s, e, less) <==> x == e || x in s
  {
    if s != [] && !less(e.key, s[0].key) {
      var rest := InsertEntry(s[1..], e, less);
      InsertSorts(s[1..], e, less);
      forall i | 0 <= i < |rest| ensures less(s[0].key, rest[i].key) {
        assert rest[i] in rest;
      }
    }
  }

  lemma {:induction false} SortSorts(entries: seq<Entry>, less: KeyOrder)
    requires StrictTotal(less) && UniqueKeys(entries)
    ensures SortedByKey(SortEntries(entries, less), less)
    ensures forall x :: x in SortEntries(entries, less) <==> x in entries
  {
    if entries == [] {
    } else {
      var rest := SortEntries(entries[1..], less);
      SortSorts(entries[1..], less);
      forall i | 0 <= i < |rest| ensures rest[i].key != entries[0].key {
        assert rest[i] in entries[1..];
      }
      InsertSorts(rest, entries[0], less);
    }
  }

  lemma SortedIsUnique(entries: seq<Entry>, less: KeyOrder)
    requires StrictTotal(less) && SortedByKey(entries, less)
    ensures UniqueKeys(entries)
  {
    forall i, j | 0 <= i < j < |entries| ensures entries[i].key != entries[j].key {
      assert less(entries[i].key, entries[j].key);
    }
  }

  // ----- normal forms

  /** Every object of the tree has its keys in order. */
  ghost predicate Canonical(j: Json, less: KeyOrder) {
    match j
    case Arr(items) => forall i :: 0 <= i < |items| ==> Canonical(items[i], less)
    case Obj(entries) =>
      SortedByKey(entries, less) && forall i :: 0 <= i < |entries| ==> Canonical(entries[i].value, less)
    case _ => true
  }

  lemma {:induction false} ItemsNormalized(items: seq<Json>, less: KeyOrder)
    requires StrictTotal(less) && forall i :: 0 <= i < |items| ==> WellFormed(items[i])
    ensures Meanings(NormalizeItems(items, less)) == Meanings(items)
    ensures forall i :: 0 <= i < |items| ==> Canonical(NormalizeItems(items, less)[i], less)
    decreases items, 0
  {
    if items == [] {
    } else {
      var all := NormalizeItems(items, less);
      var rest := NormalizeItems(items[1..], less);
      NormalizeKeepsMeaning(items[0], less);
      ItemsNormalized(items[1..], less);
      assert all == [NormalizeForHash(items[0], less)] + rest && all[1..] == rest;
      forall i | 0 <= i < |all| ensures Canonical(all[i], less) {
        assert i > 0 ==> all[i] == rest[i - 1];
      }
    }
  }

  lemma ValuesKeepKeys(entries: seq<Entry>, less: KeyOrder)
    requires UniqueKeys(entries)
    ensures UniqueKeys(NormalizeValues(entries, less))
  {
  }

  lemma {:induction false} ValuesNormalized(entries: seq<Entry>, less: KeyOrder)
    requires StrictTotal(less) && WellFormedEntries(entries)
    ensures Fields(NormalizeValues(entries, less)) == Fields(entries)
    decreases entries, 0
  {
    if entries == [] {
    } else {
      NormalizeKeepsMeaning(entries[0].value, less);
      ValuesNormalized(entries[1..], less);
      assert NormalizeValues(entries, less)[1..] == NormalizeValues(entries[1..], less);
    }
  }

  lemma {:induction false} ValuesCanonical(entries: seq<Entry>, less: KeyOrder)
    requires StrictTotal(less) && WellFormedEntries(entries)
    ensures forall i :: 0 <= i < |entries| ==> Canonical(NormalizeValues(entries, less)[i].value, less)
    decreases entries, 0
  {
    if entries == [] {
    } else {
      var all := NormalizeValues(entries, less);
      var head := Entry(entries[0].key, NormalizeForHash(entries[0].value, less));
      var rest := NormalizeValues(entries[1..], less);
      NormalizeKeepsMeaning(entries[0].value, less);
      ValuesCanonical(entries[1..], less);
      assert all == [head] + rest && all[1..] == rest;
      forall i | 0 <= i < |all| ensures Canonical(all[i].value, less) {
        assert i > 0 ==> all[i] == rest[i - 1];
      }
    }
  }

  /** Normalizing changes only the order of entries, and leaves every object in order. */
  lemma {:induction false} NormalizeKeepsMeaning(j: Json, less: KeyOrder)
    requires StrictTotal(less) && WellFormed(j)
    ensures Meaning(NormalizeForHash(j, less)) == Meaning(j)
    ensures Canonical(NormalizeForHash(j, less), less)
    decreases j, 1
  {
    match j
    case Arr(items) => ItemsNormalized(items, less);
    case Obj(entries) =>
      var values := NormalizeValues(entries, less);
      var sorted := SortEntries(values, less);
      ValuesKeepKeys(entries, less);
      ValuesNormalized(entries, less);
      ValuesCanonical(entries, less);
      SortSorts(values, less);
      SortedIsUnique(sorted, less);
      ReorderingKeepsMeaning(values, sorted);
      forall i | 0 <= i < |sorted| ensures Canonical(sorted[i].value, less) {
        assert sorted[i] in values;
      }
    case _ =>
  }

  lemma {:induction false} SameItems(a: seq<Json>, b: seq<Json>, less: KeyOrder)
    requires StrictTotal(less) && Meanings(a) == Meanings(b)
    requires forall i :: 0 <= i < |a| ==> Canonical(a[i], less)
    requires forall i :: 0 <= i < |b| ==> Canonical(b[i], less)
    ensures a == b
    decreases a, 0
  {
    if a == [] {
    } else {
      assert Meanings(a)[0] == Meanings(b)[0] && Meanings(a)[1..] == Meanings(b)[1..];
      CanonicalIsUnique(a[0], b[0], less);
      SameItems(a[1..], b[1..], less);
      assert a == [a[0]] + a[1..] && b == [b[0]] + b[1..];
    }
  }

  lemma FirstKeyIsLeast(s: seq<Entry>, k: string, less: KeyOrder)
    requires StrictTotal(less) && SortedByKey(s, less) && k in Fields(s)
    ensures s != [] && (k == s[0].key || less(s[0].key, k))
    ensures s[0].key in Fields(s) && Fields(s)[s[0].key] == Meaning(s[0].value)
  {
    SortedIsUnique(s, less);
    FieldsAt(s);
    var i :| 0 <= i < |s| && s[i].key == k;
  }

  /** The first key of a sorted object is determined by its fields. */
  lemma FirstKeysAgree(a: seq<Entry>, b: seq<Entry>, less: KeyOrder)
    requires StrictTotal(less) && SortedByKey(a, less) && SortedByKey(b, less)
    requires Fields(a) == Fields(b) && a != []
    ensures b != [] && a[0].key == b[0].key
    ensures Meaning(a[0].value) == Meaning(b[0].value) && Fields(a[1..]) == Fields(b[1..])
  {
    FirstKeyIsLeast(a, a[0].key, less);
    FirstKeyIsLeast(b, a[0].key, less);
    FirstKeyIsLeast(a, b[0].key, less);
    SortedIsUnique(a, less);
    SortedIsUnique(b, less);
    FirstKeyIsNew(a);
    FirstKeyIsNew(b);
    assert Fields(a[1..]) == Fields(a) - {a[0].key};
    assert Fields(b[1..]) == Fields(b) - {b[0].key};
  }

  lemma {:induction false} SameEntries(a: seq<Entry>, b: seq<Entry>, less: KeyOrder)
    requires StrictTotal(less) && SortedByKey(a, less) && SortedByKey(b, less) && Fields(a) == Fields(b)
    requires forall i :: 0 <= i < |a| ==> Canonical(a[i].value, less)
    requires forall i :: 0 <= i < |b| ==> Canonical(b[i].value, less)
    ensures a == b
    decreases a, 0
  {
    if a == [] {
      SortedIsUnique(b, less);
      FieldsAt(b);
    } else {
      FirstKeysAgree(a, b, less);
      CanonicalIsUnique(a[0].value, b[0].value, less);
      SameEntries(a[1..], b[1..], less);
      assert a == [a[0]] + a[1..] && b == [b[0]] + b[1..];
    }
  }

  /** Trees in canonical form are determined by their meaning. */
  lemma {:induction false} CanonicalIsUnique(a: Json, b: Json, less: KeyOrder)
    requires StrictTotal(less) && Canonical(a, less) && Canonical(b, less) && Meaning(a) == Meaning(b)
    ensures a == b
    decreases a, 1
  {
    match a
    case Arr(items) => SameItems(items, b.items, less);
    case Obj(entries) => SameEntries(entries, b.entries, less);
    case _ =>
  }

  /** Two trees normalize alike exactly when they differ only in entry order. */
  lemma NormalFormsDecide(a: Json, b: Json, less: KeyOrder)
    requires StrictTotal(less) && WellFormed(a) && WellFormed(b)
    ensures NormalizeForHash(a, less) == NormalizeForHash(b, less) <==> Meaning(a) == Meaning(b)
  {
    NormalizeKeepsMeaning(a, less);
    NormalizeKeepsMeaning(b, less);
    if Meaning(a) == Meaning(b) {
      CanonicalIsUnique(NormalizeForHash(a, less), NormalizeForHash(b, less), less);
    }
  }

  lemma {:induction false} CanonicalIsWellFormed(j: Json, less: KeyOrder)
    requires StrictTotal(less) && Canonical(j, less)
    ensures WellFormed(j)
    decreases j
  {
    match j
    case Arr(items) =>
      forall i | 0 <= i < |items| ensures WellFormed(items[i]) { CanonicalIsWellFormed(items[i], less); }
    case Obj(entries) =>
      SortedIsUnique(entries, less);
      forall i | 0 <= i < |entries| ensures WellFormed(entries[i].value) {
        CanonicalIsWellFormed(entries[i].value, less);
      }
    case _ =>
  }

  lemma NormalizeIsIdempotent(j: Json, less: KeyOrder)
    requires StrictTotal(less) && WellFormed(j)
    ensures NormalizeForHash(NormalizeForHash(j, less), less) == NormalizeForHash(j, less)
  {
    var normal := NormalizeForHash(j, less);
    NormalizeKeepsMeaning(j, less);
    CanonicalIsWellFormed(normal, less);
    NormalFormsDecide(normal, j, less);
  }

  // ----- requests

  datatype Request = Request(httpMethod: string, path: string, query: Option<Json>, body: Option<Json>)

  function UpperChar(c: char): char {
    if 'a' <= c <= 'z' then (c as int - 32) as char else c
  }

  function ToUpperCase(s: string): string {
    if s == "" then "" else [UpperChar(s[0])] + ToUpperCase(s[1..])
  }

  /** The two cases of one ASCII letter. */
  predicate CasePair(lower: char, upper: char) {
    'a' <= lower <= 'z' && upper as int == lower as int - 32
  }

  /** Equal up to the case of ASCII letters. */
  predicate SameUpToCase(a: string, b: string) {
    |a| == |b| && forall i :: 0 <= i < |a| ==> a[i] == b[i] || CasePair(a[i], b[i]) || CasePair(b[i], a[i])
  }

  lemma {:induction false} UppercasedAlike(a: string, b: string)
    ensures ToUpperCase(a) == ToUpperCase(b) <==> SameUpToCase(a, b)
  {
    ToUpperCaseAt(a);
    ToUpperCaseAt(b);
    if ToUpperCase(a) == ToUpperCase(b) {
      forall i | 0 <= i < |a| ensures a[i] == b[i] || CasePair(a[i], b[i]) || CasePair(b[i], a[i]) {
        assert UpperChar(a[i]) == ToUpperCase(a)[i] == UpperChar(b[i]);
      }
    }
    if SameUpToCase(a, b) {
      assert forall i :: 0 <= i < |a| ==> ToUpperCase(a)[i] == ToUpperCase(b)[i];
    }
  }

  lemma {:induction false} ToUpperCaseAt(s: string)
    ensures |ToUpperCase(s)| == |s|
    ensures forall i :: 0 <= i < |s| ==> ToUpperCase(s)[i] == UpperChar(s[i])
  {
    if s == "" {
    } else {
      ToUpperCaseAt(s[1..]);
      forall i | 0 <= i < |s| ensures ToUpperCase(s)[i] == UpperChar(s[i]) {
        assert i > 0 ==> s[i] == s[1..][i - 1];
      }
    }
  }

  function Envelope(r: Request): Json {
    Obj([Entry("method", Str(ToUpperCase(r.httpMethod))), Entry("path", Str(r.path)),
         Entry("query", r.query.GetOr(Null)), Entry("body", r.body.GetOr(Null))])
  }

  type Digest = string -> string

  ghost predicate CollisionFree(digest: Digest) {
    forall s, t :: digest(s) == digest(t) ==> s == t
  }

  function FromUnknown(j: Json, less: KeyOrder, digits: NumberPrinter, digest: Digest): string {
    digest(Stringify(NormalizeForHash(j, less), digits))
  }

  function FromRequest(r: Request, less: KeyOrder, digits: NumberPrinter, digest: Digest): string {
    FromUnknown(Envelope(r), less, digits, digest)
  }

  ghost predicate WellFormedRequest(r: Request) {
    WellFormed(r.query.GetOr(Null)) && WellFormed(r.body.GetOr(Null))
  }

  lemma EnvelopeFields(r: Request)
    ensures Meaning(Envelope(r)) == Record(map[
      "body" := Meaning(r.body.GetOr(Null)), "query" := Meaning(r.query.GetOr(Null)),
      "path" := Meaning(Str(r.path)), "method" := Meaning(Str(ToUpperCase(r.httpMethod)))])
  {
    var es := Envelope(r).entries;
    assert Fields(es[4..]) == map[];
    assert es[3..][1..] == es[4..] && es[2..][1..] == es[3..] && es[1..][1..] == es[2..];
    assert Fields(es[3..]) == map["body" := Meaning(r.body.GetOr(Null))];
    assert Fields(es[2..]) == Fields(es[3..])["query" := Meaning(r.query.GetOr(Null))];
    assert Fields(es[1..]) == Fields(es[2..])["path" := Meaning(Str(r.path))];
  }

  /** Two trees hash alike exactly when they differ only in entry order. */
  lemma SameHashIffSameMeaning(a: Json, b: Json, less: KeyOrder, digits: NumberPrinter, digest: Digest)
    requires StrictTotal(less) && IsNumberPrinter(digits) && CollisionFree(digest) && WellFormed(a) && WellFormed(b)
    ensures FromUnknown(a, less, digits, digest) == FromUnknown(b, less, digits, digest) <==> Meaning(a) == Meaning(b)
  {
    NormalFormsDecide(a, b, less);
    if FromUnknown(a, less, digits, digest) == FromUnknown(b, less, digits, digest) {
      StringifyInjective(NormalizeForHash(a, less), NormalizeForHash(b, less), digits);
    }
  }

  /** Two requests hash alike exactly when they agree on method (up to case), path,
      and on query and body up to the order of entries, a missing one being null. */
  lemma SameHashIffSameRequest(a: Request, b: Request, less: KeyOrder, digits: NumberPrinter, digest: Digest)
    requires StrictTotal(less) && IsNumberPrinter(digits) && CollisionFree(digest)
    requires WellFormedRequest(a) && WellFormedRequest(b)
    ensures FromRequest(a, less, digits, digest) == FromRequest(b, less, digits, digest) <==>
      && SameUpToCase(a.httpMethod, b.httpMethod)
      && a.path == b.path
      && Meaning(a.query.GetOr(Null)) == Meaning(b.query.GetOr(Null))
      && Meaning(a.body.GetOr(Null)) == Meaning(b.body.GetOr(Null))
  {
    EnvelopeFields(a);
    EnvelopeFields(b);
    EnvelopeIsWellFormed(a);
    EnvelopeIsWellFormed(b);
    SameHashIffSameMeaning(Envelope(a), Envelope(b), less, digits, digest);
    UppercasedAlike(a.httpMethod, b.httpMethod);
    var fieldsA, fieldsB := Meaning(Envelope(a)).fields, Meaning(Envelope(b)).fields;
    if fieldsA == fieldsB {
      assert fieldsA["body"] == fieldsB["body"] && fieldsA["query"] == fieldsB["query"];
      assert fieldsA["path"] == fieldsB["path"] && fieldsA["method"] == fieldsB["method"];
    }
  }

  lemma EnvelopeIsWellFormed(r: Request)
    requires WellFormedRequest(r)
    ensures WellFormed(Envelope(r))
  {
    var es := Envelope(r).entries;
    assert |es[0].key| == 6 && |es[1].key| == 4 && |es[2].key| == 5 && |es[3].key| == 4;
    assert es[1].key[0] == 'p' && es[3].key[0] == 'b';
    assert WellFormedEntries(es);
  }
}
