/**
 JSON trees as JavaScript holds them: objects are entries in enumeration order
 with distinct keys. The meaning of a tree forgets that order at every depth, so
 two trees have one meaning exactly when they differ only in it.
 */
module Json {
  import opened Wrappers

  datatype Entry = Entry(key: string, value: Json)

  datatype Json =
    | Null
    | Bool(bool)
    | Num(units: int)     // a finite number, in units of 2^-1074: every double is a whole number of them
    | Str(text: string)
    | Arr(items: seq<Json>)
    | Obj(entries: seq<Entry>)

  datatype Tree =
    | Leaf(Json)
    | List(items: seq<Tree>)
    | Record(fields: map<string, Tree>)

  ghost predicate UniqueKeys(entries: seq<Entry>) {
    forall i, j :: 0 <= i < j < |entries| ==> entries[i].key != entries[j].key
  }

  /** Keys are distinct in every object of the tree. */
  ghost predicate WellFormed(j: Json) {
    match j
    case Arr(items) => forall i :: 0 <= i < |items| ==> WellFormed(items[i])
    case Obj(entries) => WellFormedEntries(entries)
    case _ => true
  }

  ghost predicate WellFormedEntries(entries: seq<Entry>) {
    UniqueKeys(entries) && forall i :: 0 <= i < |entries| ==> WellFormed(entries[i].value)
  }

  ghost function Meaning(j: Json): Tree
    decreases j, 1
  {
    match j
    case Arr(items) => List(Meanings(items))
    case Obj(entries) => Record(Fields(entries))
    case _ => Leaf(j)
  }

  ghost function Meanings(items: seq<Json>): (r: seq<Tree>)
    ensures |r| == |items|
    decreases items, 0
  {
    if items == [] then [] else [Meaning(items[0])] + Meanings(items[1..])
  }

  ghost function Fields(entries: seq<Entry>): map<string, Tree>
    decreases entries, 0
  {
    if entries == [] then map[] else Fields(entries[1..])[entries[0].key := Meaning(entries[0].value)]
  }

  lemma {:induction false} MeaningsAt(items: seq<Json>)
    ensures forall i :: 0 <= i < |items| ==> Meanings(items)[i] == Meaning(items[i])
  {
    if items == [] {
    } else {
      MeaningsAt(items[1..]);
      forall i | 0 <= i < |items| ensures Meanings(items)[i] == Meaning(items[i]) {
        assert i > 0 ==> items[i] == items[1..][i - 1];
      }
    }
  }

  /** With distinct keys, an object's fields are its entries. */
  lemma {:induction false} FieldsAt(entries: seq<Entry>)
    requires UniqueKeys(entries)
    ensures forall i :: 0 <= i < |entries| ==>
      entries[i].key in Fields(entries) && Fields(entries)[entries[i].key] == Meaning(entries[i].value)
    ensures forall k :: k in Fields(entries) ==> exists i :: 0 <= i < |entries| && entries[i].key == k
    ensures |Fields(entries)| == |entries|
  {
    if entries == [] {
    } else {
      var rest := entries[1..];
      FieldsAt(rest);
      FieldKeys(entries);
      FirstKeyIsNew(entries);
      forall i | 0 <= i < |entries|
        ensures entries[i].key in Fields(entries) && Fields(entries)[entries[i].key] == Meaning(entries[i].value)
      {
        assert i > 0 ==> entries[i] == rest[i - 1];
      }
      AddingAKey(Fields(rest), entries[0].key, Meaning(entries[0].value));
    }
  }

  lemma AddingAKey(fields: map<string, Tree>, key: string, value: Tree)
    requires key !in fields
    ensures |fields[key := value]| == |fields| + 1
  {
    assert fields[key := value].Keys == fields.Keys + {key};
  }

  /** The first key of an object is not among the fields of the rest. */
  lemma FirstKeyIsNew(entries: seq<Entry>)
    requires UniqueKeys(entries) && entries != []
    ensures entries[0].key !in Fields(entries[1..])
  {
    var rest := entries[1..];
    assert forall i :: 0 <= i < |rest| ==> rest[i] == entries[i + 1];
    FieldKeys(rest);
  }

  lemma {:induction false} FieldKeys(entries: seq<Entry>)
    ensures forall k :: k in Fields(entries) ==> exists i :: 0 <= i < |entries| && entries[i].key == k
  {
    if entries == [] {
    } else {
      var rest := entries[1..];
      FieldKeys(rest);
      forall k | k in Fields(entries) ensures exists i :: 0 <= i < |entries| && entries[i].key == k {
        if k == entries[0].key {
          assert entries[0].key == k;
        } else {
          assert k in Fields(rest);
          var i :| 0 <= i < |rest| && rest[i].key == k;
          assert entries[i + 1].key == k;
        }
      }
    }
  }

  lemma FieldsWithin(a: seq<Entry>, b: seq<Entry>, k: string)
    requires UniqueKeys(a) && UniqueKeys(b) && k in Fields(a)
    requires forall e :: e in a ==> e in b
    ensures k in Fields(b) && Fields(b)[k] == Fields(a)[k]
  {
    FieldsAt(a);
    FieldsAt(b);
    var i :| 0 <= i < |a| && a[i].key == k;
    assert a[i] in b;
  }

  /** Reordering the entries of an object keeps its meaning. */
  lemma ReorderingKeepsMeaning(a: seq<Entry>, b: seq<Entry>)
    requires UniqueKeys(a) && UniqueKeys(b)
    requires forall e :: e in a <==> e in b
    ensures Meaning(Obj(a)) == Meaning(Obj(b))
  {
    forall k | k in Fields(a) ensures k in Fields(b) && Fields(b)[k] == Fields(a)[k] {
      FieldsWithin(a, b, k);
    }
    forall k | k in Fields(b) ensures k in Fields(a) {
      FieldsWithin(b, a, k);
    }
  }

  /** The value under a key, as o[key] reads it. */
  function Find(entries: seq<Entry>, key: string): (found: Option<Json>)
    ensures found.Some? ==> Entry(key, found.value) in entries
  {
    if entries == [] then None
    else if entries[0].key == key then Some(entries[0].value)
    else Find(entries[1..], key)
  }

  lemma {:induction false} FindIsField(entries: seq<Entry>, key: string)
    requires WellFormedEntries(entries)
    ensures Find(entries, key).Some? <==> key in Fields(entries)
    ensures Find(entries, key).Some? ==>
      Fields(entries)[key] == Meaning(Find(entries, key).value) && WellFormed(Find(entries, key).value)
  {
    if entries == [] {
    } else {
      FindIsField(entries[1..], key);
    }
  }
}
