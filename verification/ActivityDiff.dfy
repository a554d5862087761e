/**
 The structural diff recorded for an update, and the deep comparison it uses.
 Paths are key sequences; a missing previous value is None.
 */
module ActivityDiff {
  import opened Wrappers
  import opened Json

  datatype Change = Change(path: seq<string>, from: Option<Json>, to: Json)

  class ChangeList {
    var items: seq<Change>

    constructor ()
      ensures items == []
    {
      items := [];
    }

    method Push(change: Change)
      modifies this
      ensures items == old(items) + [change]
    {
      items := items + [change];
    }
  }

  predicate IsPlainObject(value: Option<Json>) {
    value.Some? && value.value.Obj?
  }

  // ----- comparison

  /** True exactly when the trees differ at most in entry order. The first test
      stands for Object.is, which on trees can only answer true sooner. */
  method ValuesAreEqual(a: Json, b: Json) returns (eq: bool)
    requires WellFormed(a) && WellFormed(b)
    ensures eq <==> Meaning(a) == Meaning(b)
    decreases a, 1
  {
    if a == b {
      return true;
    }
    if a.Arr? && b.Arr? {
      eq := ItemsAreEqual(a.items, b.items);
      return;
    }
    if a.Obj? && b.Obj? {
      eq := EntriesAreEqual(a.entries, b.entries);
      return;
    }
    return false;
  }

  /** The array branch. */
  method ItemsAreEqual(a: seq<Json>, b: seq<Json>) returns (eq: bool)
    requires WellFormed(Arr(a)) && WellFormed(Arr(b))
    ensures eq <==> Meanings(a) == Meanings(b)
    decreases a, 0
  {
    if |a| != |b| {
      return false;
    }
    MeaningsAt(a);
    MeaningsAt(b);
    for i := 0 to |a|
      invariant forall j :: 0 <= j < i ==> Meaning(a[j]) == Meaning(b[j])
    {
      var same := ValuesAreEqual(a[i], b[i]);
      if !same {
        assert Meanings(a)[i] != Meanings(b)[i];
        return false;
      }
    }
    assert Meanings(a) == Meanings(b);
    return true;
  }

  /** The object branch: one side's keys and the key counts. */
  method EntriesAreEqual(a: seq<Entry>, b: seq<Entry>) returns (eq: bool)
    requires WellFormedEntries(a) && WellFormedEntries(b)
    ensures eq <==> Fields(a) == Fields(b)
    decreases a, 0
  {
    FieldsAt(a);
    FieldsAt(b);
    if |a| != |b| {
      return false;
    }
    for i := 0 to |a|
      invariant forall j :: 0 <= j < i ==> SameField(b, a[j])
    {
      var key := a[i].key;
      var other := Find(b, key);
      FindIsField(b, key);
      if other.None? {
        return false;
      }
      var same := ValuesAreEqual(a[i].value, other.value);
      if !same {
        assert Fields(a)[key] != Fields(b)[key];
        return false;
      }
    }
    OneSideIsEnough(a, b);
    return true;
  }

  ghost predicate SameField(entries: seq<Entry>, e: Entry) {
    e.key in Fields(entries) && Fields(entries)[e.key] == Meaning(e.value)
  }

  /** Checking the keys of one side is enough once the key counts agree. */
  lemma OneSideIsEnough(a: seq<Entry>, b: seq<Entry>)
    requires UniqueKeys(a) && UniqueKeys(b) && |a| == |b|
    requires forall i :: 0 <= i < |a| ==> SameField(b, a[i])
    ensures Fields(a) == Fields(b)
  {
    FieldsAt(a);
    FieldsAt(b);
    forall k | k in Fields(a) ensures k in Fields(b) && Fields(a)[k] == Fields(b)[k] {
      var i :| 0 <= i < |a| && a[i].key == k;
      assert SameField(b, a[i]);
    }
    SubsetOfSameSize(Fields(a).Keys, Fields(b).Keys);
  }

  lemma SubsetOfSameSize(a: set<string>, b: set<string>)
    requires a <= b && |a| == |b|
    ensures a == b
  {
    forall x | x in b ensures x in a {
      if x !in a {
        CardinalityMonotone(a, b - {x});
      }
    }
  }

  lemma {:induction false} CardinalityMonotone(a: set<string>, b: set<string>)
    requires a <= b
    ensures |a| <= |b|
  {
    if x :| x in a {
      CardinalityMonotone(a - {x}, b - {x});
    }
  }

  // ----- the diff

  ghost function Diff(updated: seq<Entry>, previous: seq<Entry>, parent: seq<string>): seq<Change>
    decreases updated, 1
  {
    if updated == [] then []
    else DiffField(updated[0], previous, parent) + Diff(updated[1..], previous, parent)
  }

  ghost function DiffField(e: Entry, previous: seq<Entry>, parent: seq<string>): seq<Change>
    decreases e, 0
  {
    var prev := Find(previous, e.key);
    var path := parent + [e.key];
    if e.value.Obj? && IsPlainObject(prev) then Diff(e.value.entries, prev.value.entries, path)
    else if prev.Some? && Meaning(e.value) == Meaning(prev.value) then []
    else [Change(path, prev, e.value)]
  }

  lemma {:induction false} DiffAppend(a: seq<Entry>, e: Entry, previous: seq<Entry>, parent: seq<string>)
    ensures Diff(a + [e], previous, parent) == Diff(a, previous, parent) + DiffField(e, previous, parent)
  {
    if a == [] {
      assert [e][1..] == [] && a + [e] == [e];
    } else {
      var first, rest, last :=
        DiffField(a[0], previous, parent), Diff(a[1..], previous, parent), DiffField(e, previous, parent);
      DiffAppend(a[1..], e, previous, parent);
      assert (a + [e])[0] == a[0] && (a + [e])[1..] == a[1..] + [e];
      assert first + (rest + last) == (first + rest) + last;
    }
  }

  method CollectChanges(changes: ChangeList, updated: seq<Entry>, previous: seq<Entry>, parent: seq<string>)
    requires WellFormedEntries(updated) && WellFormedEntries(previous)
    modifies changes
    ensures changes.items == old(changes.items) + Diff(updated, previous, parent)
    decreases updated, 1
  {
    for i := 0 to |updated|
      invariant changes.items == old(changes.items) + Diff(updated[..i], previous, parent)
    {
      CollectField(changes, updated[i], previous, parent);
      DiffAppend(updated[..i], updated[i], previous, parent);
      assert updated[..i + 1] == updated[..i] + [updated[i]];
    }
    assert updated[..|updated|] == updated;
  }

  /** The body of the loop, for one key. */
  method CollectField(changes: ChangeList, e: Entry, previous: seq<Entry>, parent: seq<string>)
    requires WellFormed(e.value) && WellFormedEntries(previous)
    modifies changes
    ensures changes.items == old(changes.items) + DiffField(e, previous, parent)
    decreases e, 0
  {
    var Entry(key, next) := e;
    var prev := Find(previous, key);
    FindIsField(previous, key);
    var field := parent + [key];
    if IsPlainObject(Some(next)) && IsPlainObject(prev) {
      CollectChanges(changes, next.entries, prev.value.entries, field);
      return;
    }
    var equal := false;
    if prev.Some? {
      equal := ValuesAreEqual(next, prev.value);
    }
    if !equal {
      changes.Push(Change(field, prev, next));
    }
  }

  method BuildChanges(updated: seq<Entry>, previous: Option<seq<Entry>>) returns (changes: seq<Change>)
    requires WellFormedEntries(updated) && (previous.Some? ==> WellFormedEntries(previous.value))
    ensures changes == if previous.None? then [] else Diff(updated, previous.value, [])
  {
    if previous.None? {
      return [];
    }
    var list := new ChangeList();
    CollectChanges(list, updated, previous.value, []);
    return list.items;
  }

  // ----- paths

  function Under(parent: seq<string>, changes: seq<Change>): (r: seq<Change>)
    ensures |r| == |changes|
    ensures forall i :: 0 <= i < |changes| ==> r[i] == changes[i].(path := parent + changes[i].path)
  {
    seq(|changes|, i requires 0 <= i < |changes| => changes[i].(path := parent + changes[i].path))
  }

  /** A nested diff is the same diff with its parent's path in front. */
  lemma {:induction false} DiffUnder(updated: seq<Entry>, previous: seq<Entry>, base: seq<string>, parent: seq<string>)
    ensures Diff(updated, previous, base + parent) == Under(base, Diff(updated, previous, parent))
    decreases updated, 1
  {
    if updated == [] {
    } else {
      FieldUnder(updated[0], previous, base, parent);
      DiffUnder(updated[1..], previous, base, parent);
    }
  }

  lemma {:induction false} FieldUnder(e: Entry, previous: seq<Entry>, base: seq<string>, parent: seq<string>)
    ensures DiffField(e, previous, base + parent) == Under(base, DiffField(e, previous, parent))
    decreases e, 0
  {
    var prev := Find(previous, e.key);
    assert base + parent + [e.key] == base + (parent + [e.key]);
    if e.value.Obj? && IsPlainObject(prev) {
      DiffUnder(e.value.entries, prev.value.entries, base, parent + [e.key]);
    }
  }

  /** No recorded path is a prefix of another, or equal to it. */
  ghost predicate PrefixFree(changes: seq<Change>) {
    forall i, j :: 0 <= i < |changes| && 0 <= j < |changes| && i != j ==> !(changes[i].path <= changes[j].path)
  }

  ghost predicate StartWith(changes: seq<Change>, entries: seq<Entry>) {
    forall c :: c in changes ==> c.path != [] && exists i :: 0 <= i < |entries| && entries[i].key == c.path[0]
  }

  lemma {:induction false} FieldPaths(e: Entry, previous: seq<Entry>)
    requires WellFormed(e.value)
    ensures PrefixFree(DiffField(e, previous, []))
    ensures forall c :: c in DiffField(e, previous, []) ==> c.path != [] && c.path[0] == e.key
    decreases e, 0
  {
    var prev := Find(previous, e.key);
    if e.value.Obj? && IsPlainObject(prev) {
      var inner := Diff(e.value.entries, prev.value.entries, []);
      PathsArePrefixFree(e.value.entries, prev.value.entries);
      DiffUnder(e.value.entries, prev.value.entries, [e.key], []);
      assert [e.key] + [] == [e.key] == [] + [e.key];
      var outer := Under([e.key], inner);
      forall i, j | 0 <= i < |outer| && 0 <= j < |outer| && i != j ensures !(outer[i].path <= outer[j].path) {
        PrefixUnder(e.key, inner[i].path, inner[j].path);
      }
    }
  }

  lemma PrefixUnder(key: string, a: seq<string>, b: seq<string>)
    ensures [key] + a <= [key] + b ==> a <= b
  {
    assert ([key] + a)[1..] == a && ([key] + b)[1..] == b;
  }

  /** Changes under different first keys do not get in each other's way. */
  lemma JoinedPrefixFree(first: seq<Change>, rest: seq<Change>, key: string)
    requires PrefixFree(first) && PrefixFree(rest)
    requires forall c :: c in first ==> c.path != [] && c.path[0] == key
    requires forall c :: c in rest ==> c.path != [] && c.path[0] != key
    ensures PrefixFree(first + rest)
  {
    var all := first + rest;
    forall i, j | 0 <= i < |all| && 0 <= j < |all| && i != j ensures !(all[i].path <= all[j].path) {
      assert if i < |first| then all[i] == first[i] && first[i] in first
             else all[i] == rest[i - |first|] && rest[i - |first|] in rest;
      assert if j < |first| then all[j] == first[j] && first[j] in first
             else all[j] == rest[j - |first|] && rest[j - |first|] in rest;
    }
  }

  lemma {:induction false} PathsArePrefixFree(updated: seq<Entry>, previous: seq<Entry>)
    requires WellFormedEntries(updated)
    ensures PrefixFree(Diff(updated, previous, [])) && StartWith(Diff(updated, previous, []), updated)
    decreases updated, 1
  {
    if updated == [] {
    } else {
      var first, rest := DiffField(updated[0], previous, []), Diff(updated[1..], previous, []);
      FieldPaths(updated[0], previous);
      PathsArePrefixFree(updated[1..], previous);
      forall c | c in rest ensures c.path != [] && c.path[0] != updated[0].key
                           ensures exists i :: 0 <= i < |updated| && updated[i].key == c.path[0]
      {
        var i :| 0 <= i < |updated[1..]| && updated[1..][i].key == c.path[0];
        assert updated[i + 1].key == c.path[0];
      }
      JoinedPrefixFree(first, rest, updated[0].key);
      forall c | c in first + rest
        ensures c.path != [] && exists i :: 0 <= i < |updated| && updated[i].key == c.path[0]
      {
        assert c in first ==> updated[0].key == c.path[0];
      }
    }
  }

  // ----- what each change says

  function ValueAt(entries: seq<Entry>, path: seq<string>): Option<Json> {
    if path == [] then Some(Obj(entries))
    else
      var found := Find(entries, path[0]);
      if |path| == 1 then found
      else if IsPlainObject(found) then ValueAt(found.value.entries, path[1..])
      else None
  }

  /** `from` is the previous value at the path, `to` the updated one, and they differ. */
  ghost predicate Reports(c: Change, updated: seq<Entry>, previous: seq<Entry>) {
    && c.from == ValueAt(previous, c.path)
    && Some(c.to) == ValueAt(updated, c.path)
    && (c.from.Some? ==> Meaning(c.from.value) != Meaning(c.to))
  }

  lemma {:induction false} FieldReports(e: Entry, updated: seq<Entry>, previous: seq<Entry>)
    requires WellFormed(e.value) && Find(updated, e.key) == Some(e.value)
    ensures forall c :: c in DiffField(e, previous, []) ==> Reports(c, updated, previous)
    decreases e, 0
  {
    var prev := Find(previous, e.key);
    if e.value.Obj? && IsPlainObject(prev) {
      var inner := Diff(e.value.entries, prev.value.entries, []);
      FindOwn(e.value.entries);
      ChangesReport(e.value.entries, e.value.entries, prev.value.entries);
      PathsArePrefixFree(e.value.entries, prev.value.entries);
      DiffUnder(e.value.entries, prev.value.entries, [e.key], []);
      assert [e.key] + [] == [e.key] == [] + [e.key];
      forall c | c in DiffField(e, previous, []) ensures Reports(c, updated, previous) {
        var i :| 0 <= i < |inner| && c == Under([e.key], inner)[i];
        assert inner[i] in inner;
        assert c.path[1..] == inner[i].path && |c.path| > 1;
      }
    }
  }

  lemma {:induction false} ChangesReport(part: seq<Entry>, updated: seq<Entry>, previous: seq<Entry>)
    requires WellFormedEntries(part) && forall e :: e in part ==> Find(updated, e.key) == Some(e.value)
    ensures forall c :: c in Diff(part, previous, []) ==> Reports(c, updated, previous)
    decreases part, 1
  {
    if part == [] {
    } else {
      FieldReports(part[0], updated, previous);
      ChangesReport(part[1..], updated, previous);
    }
  }

  lemma {:induction false} FindOwn(entries: seq<Entry>)
    requires UniqueKeys(entries)
    ensures forall e :: e in entries ==> Find(entries, e.key) == Some(e.value)
  {
    if entries == [] {
    } else {
      FindOwn(entries[1..]);
      forall e | e in entries[1..] ensures e.key != entries[0].key {
        var i :| 0 <= i < |entries[1..]| && entries[1..][i] == e;
        assert entries[i + 1] == e;
      }
    }
  }

  // ----- the diff as a patch

  /** Deep merge: objects are merged key by key, anything else is replaced. */
  ghost function Merge(previous: Tree, updated: Tree): Tree
    decreases updated
  {
    if previous.Record? && updated.Record? then
      Record(map k | k in previous.fields.Keys + updated.fields.Keys ::
        if k !in updated.fields then previous.fields[k]
        else if k !in previous.fields then updated.fields[k]
        else Merge(previous.fields[k], updated.fields[k]))
    else updated
  }

  /** Writes a value at a path, making objects on the way where there is none. */
  ghost function Put(t: Tree, path: seq<string>, value: Tree): Tree
    decreases |path|
  {
    if path == [] then value
    else
      var fields := if t.Record? then t.fields else map[];
      var inner := if path[0] in fields then fields[path[0]] else Record(map[]);
      Record(fields[path[0] := Put(inner, path[1..], value)])
  }

  ghost function ApplyAll(t: Tree, changes: seq<Change>): Tree
    decreases changes
  {
    if changes == [] then t
    else ApplyAll(Put(t, changes[0].path, Meaning(changes[0].to)), changes[1..])
  }

  lemma {:induction false} ApplyAppend(t: Tree, a: seq<Change>, b: seq<Change>)
    ensures ApplyAll(t, a + b) == ApplyAll(ApplyAll(t, a), b)
    decreases a
  {
    if a == [] {
      assert a + b == b;
    } else {
      ApplyAppend(Put(t, a[0].path, Meaning(a[0].to)), a[1..], b);
      assert (a + b)[1..] == a[1..] + b;
    }
  }

  /** Changes under one key patch the value of that key. */
  lemma {:induction false} ApplyUnder(fields: map<string, Tree>, key: string, changes: seq<Change>)
    requires key in fields
    ensures ApplyAll(Record(fields), Under([key], changes)) == Record(fields[key := ApplyAll(fields[key], changes)])
    decreases changes
  {
    var outer := Under([key], changes);
    if changes == [] {
      assert fields[key := fields[key]] == fields;
    } else {
      var value := Put(fields[key], changes[0].path, Meaning(changes[0].to));
      assert outer[0].path[1..] == changes[0].path && outer[0].path[0] == key;
      assert outer[1..] == Under([key], changes[1..]);
      ApplyUnder(fields[key := value], key, changes[1..]);
      assert fields[key := value][key := ApplyAll(value, changes[1..])] == fields[key := ApplyAll(value, changes[1..])];
    }
  }

  /** The merged value of one key. */
  ghost function MergedField(fields: map<string, Tree>, key: string, value: Tree): Tree {
    if key in fields then Merge(fields[key], value) else value
  }

  lemma {:induction false} FieldPatches(e: Entry, previous: seq<Entry>, fields: map<string, Tree>)
    requires WellFormed(e.value) && WellFormedEntries(previous)
    requires e.key in fields <==> e.key in Fields(previous)
    requires e.key in fields ==> fields[e.key] == Fields(previous)[e.key]
    ensures ApplyAll(Record(fields), DiffField(e, previous, [])) ==
      Record(fields[e.key := MergedField(fields, e.key, Meaning(e.value))])
    decreases e, 0
  {
    var prev := Find(previous, e.key);
    FindIsField(previous, e.key);
    assert [] + [e.key] == [e.key] == [e.key] + [];
    if e.value.Obj? && IsPlainObject(prev) {
      var inner := Diff(e.value.entries, prev.value.entries, []);
      DiffUnder(e.value.entries, prev.value.entries, [e.key], []);
      ApplyUnder(fields, e.key, inner);
      EntriesPatch(e.value.entries, prev.value.entries, Fields(prev.value.entries));
    } else if DiffField(e, previous, []) == [] {
      assert fields[e.key := fields[e.key]] == fields;
    } else {
      var change := Change([e.key], prev, e.value);
      assert DiffField(e, previous, []) == [change];
      assert Put(Record(fields), [e.key], Meaning(e.value)) == Record(fields[e.key := Meaning(e.value)]);
      assert ApplyAll(Record(fields), [change]) == Record(fields[e.key := Meaning(e.value)]);
    }
  }

  lemma {:induction false} EntriesPatch(updated: seq<Entry>, previous: seq<Entry>, fields: map<string, Tree>)
    requires WellFormedEntries(updated) && WellFormedEntries(previous)
    requires forall e :: e in updated ==> (e.key in fields <==> e.key in Fields(previous))
    requires forall e :: e in updated && e.key in fields ==> fields[e.key] == Fields(previous)[e.key]
    ensures ApplyAll(Record(fields), Diff(updated, previous, [])) == Merge(Record(fields), Record(Fields(updated)))
    decreases updated, 1
  {
    if updated == [] {
      assert Merge(Record(fields), Record(map[])).fields == fields;
    } else {
      var e, rest := updated[0], updated[1..];
      var merged := MergedField(fields, e.key, Meaning(e.value));
      var patched := fields[e.key := merged];
      assert e in updated;
      assert ApplyAll(Record(fields), DiffField(e, previous, [])) == Record(patched) by {
        FieldPatches(e, previous, fields);
      }
      ApplyAppend(Record(fields), DiffField(e, previous, []), Diff(rest, previous, []));
      RestHasOtherKeys(updated);
      PatchedAgree(rest, previous, fields, patched, e.key);
      EntriesPatch(rest, previous, patched);
      MergeOneMore(fields, e.key, Meaning(e.value), Fields(rest));
    }
  }

  lemma RestHasOtherKeys(entries: seq<Entry>)
    requires UniqueKeys(entries) && entries != []
    ensures forall x :: x in entries[1..] ==> x in entries && x.key != entries[0].key
    ensures entries[0].key !in Fields(entries[1..])
  {
    var rest := entries[1..];
    forall x | x in rest ensures x in entries && x.key != entries[0].key {
      var i :| 0 <= i < |rest| && rest[i] == x;
      assert entries[i + 1] == x;
    }
    FirstKeyIsNew(entries);
  }

  lemma PatchedAgree(
    rest: seq<Entry>, previous: seq<Entry>, fields: map<string, Tree>, patched: map<string, Tree>, key: string)
    requires forall x :: x in rest ==> x.key != key
    requires forall x :: x in rest ==> (x.key in fields <==> x.key in Fields(previous))
    requires forall x :: x in rest && x.key in fields ==> fields[x.key] == Fields(previous)[x.key]
    requires key in patched && patched == fields[key := patched[key]]
    ensures forall x :: x in rest ==> (x.key in patched <==> x.key in Fields(previous))
    ensures forall x :: x in rest && x.key in patched ==> patched[x.key] == Fields(previous)[x.key]
  {
  }

  lemma MergeOneMore(fields: map<string, Tree>, key: string, value: Tree, rest: map<string, Tree>)
    requires key !in rest
    ensures Merge(Record(fields[key := MergedField(fields, key, value)]), Record(rest)) ==
            Merge(Record(fields), Record(rest[key := value]))
  {
    var left := Merge(Record(fields[key := MergedField(fields, key, value)]), Record(rest)).fields;
    var right := Merge(Record(fields), Record(rest[key := value])).fields;
    assert left.Keys == right.Keys;
    assert left[key] == right[key];
    assert forall k :: k in left.Keys && k != key ==> left[k] == right[k];
  }

  /** Applying all recorded changes to the previous value gives the deep merge. */
  lemma DiffIsAPatch(updated: seq<Entry>, previous: seq<Entry>)
    requires WellFormedEntries(updated) && WellFormedEntries(previous)
    ensures ApplyAll(Meaning(Obj(previous)), Diff(updated, previous, [])) ==
            Merge(Meaning(Obj(previous)), Meaning(Obj(updated)))
  {
    EntriesPatch(updated, previous, Fields(previous));
  }

  lemma {:induction false} NoEffectNoChanges(updated: seq<Entry>, previous: seq<Entry>)
    requires WellFormedEntries(updated) && WellFormedEntries(previous)
    requires forall e :: e in updated ==>
      e.key in Fields(previous) && Merge(Fields(previous)[e.key], Meaning(e.value)) == Fields(previous)[e.key]
    ensures Diff(updated, previous, []) == []
    decreases updated
  {
    if updated == [] {
    } else {
      var e := updated[0];
      var prev := Find(previous, e.key);
      FindIsField(previous, e.key);
      NoEffectNoChanges(updated[1..], previous);
      assert e in updated;
      if e.value.Obj? && IsPlainObject(prev) {
        var inner := prev.value.entries;
        MergeFixesFields(e.value.entries, inner);
        NoEffectNoChanges(e.value.entries, inner);
        DiffUnder(e.value.entries, inner, [e.key], []);
        assert [e.key] + [] == [e.key] == [] + [e.key];
      }
    }
  }

  /** A merge that changes nothing changes nothing at each key. */
  lemma MergeFixesFields(updated: seq<Entry>, previous: seq<Entry>)
    requires WellFormedEntries(updated)
    requires Merge(Record(Fields(previous)), Record(Fields(updated))) == Record(Fields(previous))
    ensures forall e :: e in updated ==>
      e.key in Fields(previous) && Merge(Fields(previous)[e.key], Meaning(e.value)) == Fields(previous)[e.key]
  {
    FieldsAt(updated);
    var merged := Merge(Record(Fields(previous)), Record(Fields(updated))).fields;
    forall e | e in updated
      ensures e.key in Fields(previous) && Merge(Fields(previous)[e.key], Meaning(e.value)) == Fields(previous)[e.key]
    {
      var i :| 0 <= i < |updated| && updated[i] == e;
      assert e.key in merged;
    }
  }

  /** No change is recorded exactly when the update merges to the previous value. */
  lemma NoChangesIffNoEffect(updated: seq<Entry>, previous: seq<Entry>)
    requires WellFormedEntries(updated) && WellFormedEntries(previous)
    ensures Diff(updated, previous, []) == [] <==>
      Merge(Meaning(Obj(previous)), Meaning(Obj(updated))) == Meaning(Obj(previous))
  {
    DiffIsAPatch(updated, previous);
    if Merge(Meaning(Obj(previous)), Meaning(Obj(updated))) == Meaning(Obj(previous)) {
      MergeFixesFields(updated, previous);
      NoEffectNoChanges(updated, previous);
    }
  }

  /** What the recorded changes are: prefix-free, each reporting both values. */
  lemma DiffIsExact(updated: seq<Entry>, previous: seq<Entry>)
    requires WellFormedEntries(updated) && WellFormedEntries(previous)
    ensures PrefixFree(Diff(updated, previous, []))
    ensures forall c :: c in Diff(updated, previous, []) ==> Reports(c, updated, previous)
  {
    PathsArePrefixFree(updated, previous);
    FindOwn(updated);
    ChangesReport(updated, updated, previous);
  }
}
