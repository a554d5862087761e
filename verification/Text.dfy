/** Facts about strings with a separator, used by the key printers. */
module Text {

  predicate Free(s: string, sep: char) {
    forall i :: 0 <= i < |s| ==> s[i] != sep
  }

  /** The first separator of a string splits it in only one way. */
  lemma SplitAtFirst(a: string, b: string, sep: char, r: string, t: string)
    requires Free(a, sep) && Free(b, sep)
    requires a + [sep] + r == b + [sep] + t
    ensures a == b && r == t
  {
    var left, right := a + [sep] + r, b + [sep] + t;
    assert forall i :: 0 <= i < |a| ==> left[i] == a[i];
    assert forall i :: 0 <= i < |b| ==> right[i] == b[i];
    assert left[|a|] == sep && right[|b|] == sep;
    assert a == left[..|a|] && b == right[..|b|];
    assert r == left[|a| + 1..] && t == right[|b| + 1..];
  }
}
