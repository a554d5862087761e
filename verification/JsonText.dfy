/**
 JSON.stringify of a tree, and the proof that the text determines the tree. How a
 number is written is a parameter: `digits` gives distinct numbers distinct texts
 over the characters of JSON numbers.
 */
module JsonText {
  import opened Json

  type NumberPrinter = int -> string

  predicate NumberChar(c: char) {
    '0' <= c <= '9' || c == '-' || c == '+' || c == '.' || c == 'e'
  }

  ghost predicate IsNumberPrinter(digits: NumberPrinter) {
    && (forall n :: digits(n) != "" && AllNumberChars(digits(n)))
    && (forall m, n :: digits(m) == digits(n) ==> m == n)
  }

  predicate AllNumberChars(s: string) {
    forall i :: 0 <= i < |s| ==> NumberChar(s[i])
  }

  // ----- the printer

  function Hex(n: nat): char
    requires n < 16
  {
    if n < 10 then ('0' as int + n) as char else ('a' as int + n - 10) as char
  }

  function EscapeChar(c: char): string {
    match c
    case '\"' => "\\\""
    case '\\' => "\\\\"
    case '\U{0008}' => "\\b"
    case '\t' => "\\t"
    case '\n' => "\\n"
    case '\U{000C}' => "\\f"
    case '\r' => "\\r"
    case _ => if c < ' ' then ['\\', 'u', '0', '0', Hex(c as int / 16), Hex(c as int % 16)] else [c]
  }

  /** A string from behind its opening quote. */
  function Unquoted(s: string): string {
    if s == "" then "\"" else EscapeChar(s[0]) + Unquoted(s[1..])
  }

  function Quote(s: string): string {
    "\"" + Unquoted(s)
  }

  function Stringify(j: Json, digits: NumberPrinter): string
    decreases j, 1
  {
    match j
    case Null => "null"
    case Bool(b) => if b then "true" else "false"
    case Num(n) => digits(n)
    case Str(s) => Quote(s)
    case Arr(items) => "[" + Items(items, digits)
    case Obj(entries) => "{" + Members(entries, digits)
  }

  /** An array from behind its opening bracket. */
  function Items(items: seq<Json>, digits: NumberPrinter): string
    decreases items, 1
  {
    if items == [] then "]" else Stringify(items[0], digits) + MoreItems(items[1..], digits)
  }

  function MoreItems(items: seq<Json>, digits: NumberPrinter): string
    decreases items, 0
  {
    if items == [] then "]" else "," + (Stringify(items[0], digits) + MoreItems(items[1..], digits))
  }

  /** An object from behind its opening brace. */
  function Members(entries: seq<Entry>, digits: NumberPrinter): string
    decreases entries, 1
  {
    if entries == [] then "}" else Member(entries[0], digits) + MoreMembers(entries[1..], digits)
  }

  function Member(e: Entry, digits: NumberPrinter): string
    decreases e, 0
  {
    Quote(e.key) + (":" + Stringify(e.value, digits))
  }

  function MoreMembers(entries: seq<Entry>, digits: NumberPrinter): string
    decreases entries, 0
  {
    if entries == [] then "}" else "," + (Member(entries[0], digits) + MoreMembers(entries[1..], digits))
  }

  // ----- strings

  lemma Cancel(p: string, r: string, t: string)
    requires p + r == p + t
    ensures r == t
  {
    assert r == (p + r)[|p|..] && t == (p + t)[|p|..];
  }

  lemma Assoc(a: string, b: string, c: string)
    ensures a + b + c == a + (b + c)
  {
  }

  lemma EscapeCharPrefixFree(c: char, d: char, r: string, t: string)
    requires EscapeChar(c) + r == EscapeChar(d) + t
    ensures c == d && r == t
  {
    var s, u := EscapeChar(c) + r, EscapeChar(d) + t;
    assert EscapeChar(c)[0] == s[0] == EscapeChar(d)[0];
    if |EscapeChar(c)| > 1 && |EscapeChar(d)| > 1 {
      assert EscapeChar(c)[1] == s[1] == EscapeChar(d)[1];
      if |EscapeChar(c)| > 2 {
        assert EscapeChar(c)[4] == s[4] == EscapeChar(d)[4] && EscapeChar(c)[5] == s[5] == EscapeChar(d)[5];
        assert c as int / 16 == d as int / 16 && c as int % 16 == d as int % 16;
      }
    }
    assert c == d;
    assert r == s[|EscapeChar(c)|..] && t == s[|EscapeChar(d)|..];
  }

  lemma UnquotedHead(s: string)
    ensures Unquoted(s) != "" && (Unquoted(s)[0] == '\"' <==> s == "")
  {
  }

  lemma {:induction false} UnquotedPrefixFree(s: string, u: string, r: string, t: string)
    requires Unquoted(s) + r == Unquoted(u) + t
    ensures s == u && r == t
  {
    UnquotedHead(s);
    UnquotedHead(u);
    assert Unquoted(s)[0] == (Unquoted(s) + r)[0] == (Unquoted(u) + t)[0] == Unquoted(u)[0];
    if s == "" {
      Cancel("\"", r, t);
    } else {
      Assoc(EscapeChar(s[0]), Unquoted(s[1..]), r);
      Assoc(EscapeChar(u[0]), Unquoted(u[1..]), t);
      EscapeCharPrefixFree(s[0], u[0], Unquoted(s[1..]) + r, Unquoted(u[1..]) + t);
      UnquotedPrefixFree(s[1..], u[1..], r, t);
      assert s == [s[0]] + s[1..] && u == [u[0]] + u[1..];
    }
  }

  lemma QuotePrefixFree(s: string, u: string, r: string, t: string)
    requires Quote(s) + r == Quote(u) + t
    ensures s == u && r == t
  {
    Assoc("\"", Unquoted(s), r);
    Assoc("\"", Unquoted(u), t);
    Cancel("\"", Unquoted(s) + r, Unquoted(u) + t);
    UnquotedPrefixFree(s, u, r, t);
  }

  // ----- numbers

  /** What may follow a value. */
  predicate Ends(r: string) {
    r == "" || r[0] == ',' || r[0] == ']' || r[0] == '}'
  }

  lemma NumbersEndAlike(a: string, b: string, r: string, t: string)
    requires AllNumberChars(a) && AllNumberChars(b) && Ends(r) && Ends(t) && a + r == b + t
    ensures a == b && r == t
  {
    var s := a + r;
    assert forall i :: 0 <= i < |a| ==> s[i] == a[i];
    assert forall i :: 0 <= i < |b| ==> s[i] == b[i];
    assert |a| < |s| ==> s[|a|] == r[0];
    assert |b| < |s| ==> s[|b|] == t[0];
    assert a == s[..|a|] && b == s[..|b|] && r == s[|a|..] && t == s[|b|..];
  }

  // ----- trees

  /** The first character tells the kind of a value. */
  lemma StringifyHead(j: Json, digits: NumberPrinter)
    requires IsNumberPrinter(digits)
    ensures var s := Stringify(j, digits); s != "" && match j {
      case Null => s[0] == 'n'
      case Bool(b) => s[0] == if b then 't' else 'f'
      case Num(_) => NumberChar(s[0])
      case Str(_) => s[0] == '\"'
      case Arr(_) => s[0] == '['
      case Obj(_) => s[0] == '{'
    }
    ensures !Ends(Stringify(j, digits))
  {
    if j.Num? {
      assert AllNumberChars(digits(j.units));
    }
  }

  lemma SameKind(a: Json, b: Json, r: string, t: string, digits: NumberPrinter)
    requires IsNumberPrinter(digits) && Stringify(a, digits) + r == Stringify(b, digits) + t
    ensures a.Null? == b.Null? && a.Num? == b.Num? && a.Str? == b.Str? && a.Arr? == b.Arr? && a.Obj? == b.Obj?
    ensures a.Bool? || b.Bool? ==> a == b
  {
    StringifyHead(a, digits);
    StringifyHead(b, digits);
    assert Stringify(a, digits)[0] == (Stringify(a, digits) + r)[0];
    assert Stringify(b, digits)[0] == (Stringify(b, digits) + t)[0];
  }

  /** The text of a value, followed by what may follow one, determines the value. */
  lemma {:induction false} StringifyPrefixFree(a: Json, b: Json, r: string, t: string, digits: NumberPrinter)
    requires IsNumberPrinter(digits) && Ends(r) && Ends(t)
    requires Stringify(a, digits) + r == Stringify(b, digits) + t
    ensures a == b && r == t
    decreases a, 1
  {
    SameKind(a, b, r, t, digits);
    match a
    case Null => Cancel("null", r, t);
    case Bool(_) => Cancel(Stringify(a, digits), r, t);
    case Num(n) => NumbersEndAlike(digits(n), digits(b.units), r, t);
    case Str(s) => QuotePrefixFree(s, b.text, r, t);
    case Arr(items) =>
      Assoc("[", Items(items, digits), r);
      Assoc("[", Items(b.items, digits), t);
      Cancel("[", Items(items, digits) + r, Items(b.items, digits) + t);
      ItemsPrefixFree(items, b.items, r, t, digits);
    case Obj(entries) =>
      Assoc("{", Members(entries, digits), r);
      Assoc("{", Members(b.entries, digits), t);
      Cancel("{", Members(entries, digits) + r, Members(b.entries, digits) + t);
      MembersPrefixFree(entries, b.entries, r, t, digits);
  }

  lemma {:induction false} ItemsPrefixFree(a: seq<Json>, b: seq<Json>, r: string, t: string, digits: NumberPrinter)
    requires IsNumberPrinter(digits) && Items(a, digits) + r == Items(b, digits) + t
    ensures a == b && r == t
    decreases a, 1
  {
    var s, u := Items(a, digits) + r, Items(b, digits) + t;
    if a != [] { StringifyHead(a[0], digits); }
    if b != [] { StringifyHead(b[0], digits); }
    assert (a == [] <==> s[0] == ']') && (b == [] <==> u[0] == ']');
    if a == [] {
      Cancel("]", r, t);
    } else {
      var x, y := MoreItems(a[1..], digits) + r, MoreItems(b[1..], digits) + t;
      Assoc(Stringify(a[0], digits), MoreItems(a[1..], digits), r);
      Assoc(Stringify(b[0], digits), MoreItems(b[1..], digits), t);
      StringifyPrefixFree(a[0], b[0], x, y, digits);
      MoreItemsPrefixFree(a[1..], b[1..], r, t, digits);
      assert a == [a[0]] + a[1..] && b == [b[0]] + b[1..];
    }
  }

  lemma {:induction false} MoreItemsPrefixFree(a: seq<Json>, b: seq<Json>, r: string, t: string, digits: NumberPrinter)
    requires IsNumberPrinter(digits) && MoreItems(a, digits) + r == MoreItems(b, digits) + t
    ensures a == b && r == t
    decreases a, 0
  {
    var s, u := MoreItems(a, digits) + r, MoreItems(b, digits) + t;
    assert (a == [] <==> s[0] == ']') && (b == [] <==> u[0] == ']');
    if a == [] {
      Cancel("]", r, t);
    } else {
      var x, y := MoreItems(a[1..], digits) + r, MoreItems(b[1..], digits) + t;
      Assoc(",", Stringify(a[0], digits) + MoreItems(a[1..], digits), r);
      Assoc(",", Stringify(b[0], digits) + MoreItems(b[1..], digits), t);
      Assoc(Stringify(a[0], digits), MoreItems(a[1..], digits), r);
      Assoc(Stringify(b[0], digits), MoreItems(b[1..], digits), t);
      Cancel(",", Stringify(a[0], digits) + x, Stringify(b[0], digits) + y);
      StringifyPrefixFree(a[0], b[0], x, y, digits);
      MoreItemsPrefixFree(a[1..], b[1..], r, t, digits);
      assert a == [a[0]] + a[1..] && b == [b[0]] + b[1..];
    }
  }

  lemma MemberHead(e: Entry, digits: NumberPrinter)
    ensures Member(e, digits) != "" && Member(e, digits)[0] == '\"'
  {
  }

  lemma {:induction false} MemberPrefixFree(a: Entry, b: Entry, r: string, t: string, digits: NumberPrinter)
    requires IsNumberPrinter(digits) && Ends(r) && Ends(t)
    requires Member(a, digits) + r == Member(b, digits) + t
    ensures a == b && r == t
    decreases a, 2
  {
    var x, y := Stringify(a.value, digits) + r, Stringify(b.value, digits) + t;
    Assoc(Quote(a.key), ":" + Stringify(a.value, digits), r);
    Assoc(Quote(b.key), ":" + Stringify(b.value, digits), t);
    Assoc(":", Stringify(a.value, digits), r);
    Assoc(":", Stringify(b.value, digits), t);
    QuotePrefixFree(a.key, b.key, ":" + x, ":" + y);
    Cancel(":", x, y);
    StringifyPrefixFree(a.value, b.value, r, t, digits);
  }

  lemma {:induction false} MembersPrefixFree(a: seq<Entry>, b: seq<Entry>, r: string, t: string, digits: NumberPrinter)
    requires IsNumberPrinter(digits) && Members(a, digits) + r == Members(b, digits) + t
    ensures a == b && r == t
    decreases a, 1
  {
    var s, u := Members(a, digits) + r, Members(b, digits) + t;
    if a != [] { MemberHead(a[0], digits); }
    if b != [] { MemberHead(b[0], digits); }
    assert (a == [] <==> s[0] == '}') && (b == [] <==> u[0] == '}');
    if a == [] {
      Cancel("}", r, t);
    } else {
      var x, y := MoreMembers(a[1..], digits) + r, MoreMembers(b[1..], digits) + t;
      Assoc(Member(a[0], digits), MoreMembers(a[1..], digits), r);
      Assoc(Member(b[0], digits), MoreMembers(b[1..], digits), t);
      MemberPrefixFree(a[0], b[0], x, y, digits);
      MoreMembersPrefixFree(a[1..], b[1..], r, t, digits);
      assert a == [a[0]] + a[1..] && b == [b[0]] + b[1..];
    }
  }

  lemma {:induction false} MoreMembersPrefixFree(
    a: seq<Entry>, b: seq<Entry>, r: string, t: string, digits: NumberPrinter)
    requires IsNumberPrinter(digits) && MoreMembers(a, digits) + r == MoreMembers(b, digits) + t
    ensures a == b && r == t
    decreases a, 0
  {
    var s, u := MoreMembers(a, digits) + r, MoreMembers(b, digits) + t;
    assert (a == [] <==> s[0] == '}') && (b == [] <==> u[0] == '}');
    if a == [] {
      Cancel("}", r, t);
    } else {
      var x, y := MoreMembers(a[1..], digits) + r, MoreMembers(b[1..], digits) + t;
      Assoc(",", Member(a[0], digits) + MoreMembers(a[1..], digits), r);
      Assoc(",", Member(b[0], digits) + MoreMembers(b[1..], digits), t);
      Assoc(Member(a[0], digits), MoreMembers(a[1..], digits), r);
      Assoc(Member(b[0], digits), MoreMembers(b[1..], digits), t);
      Cancel(",", Member(a[0], digits) + x, Member(b[0], digits) + y);
      MemberPrefixFree(a[0], b[0], x, y, digits);
      MoreMembersPrefixFree(a[1..], b[1..], r, t, digits);
      assert a == [a[0]] + a[1..] && b == [b[0]] + b[1..];
    }
  }

  /** Different trees have different texts. */
  lemma StringifyInjective(a: Json, b: Json, digits: NumberPrinter)
    requires IsNumberPrinter(digits) && Stringify(a, digits) == Stringify(b, digits)
    ensures a == b
  {
    assert Stringify(a, digits) + "" == Stringify(b, digits) + "";
    StringifyPrefixFree(a, b, "", "", digits);
  }
}
