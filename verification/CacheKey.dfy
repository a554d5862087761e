/** The printer of cache keys: prefix, then k1:v1-k2:v2-... */
module CacheKey {
  import opened Text

  /** The decimal text JavaScript prints for a finite number. */
  type Decimal = s: string | forall i :: 0 <= i < |s| ==> s[i] in "0123456789+-.e" witness "0"

  datatype SegmentValue =
    | Undefined
    | Null
    | Bool(flag: bool)
    | NonFinite
    | Number(text: Decimal)
    | Chars(chars: string)

  datatype Segment = Segment(name: string, value: SegmentValue)

  datatype Result = Key(key: string) | PrefixRequired

  // ----- encodeURIComponent

  predicate Unreserved(c: char) {
    'A' <= c <= 'Z' || 'a' <= c <= 'z' || '0' <= c <= '9' || c in "-_.!~*'()"
  }

  function HexDigit(n: nat): (c: char)
    requires n < 16
    ensures c != ':'
  {
    if n < 10 then ('0' as int + n) as char else ('A' as int + n - 10) as char
  }

  function Percent(byte: nat): (s: string)
    requires byte < 256
    ensures Free(s, ':')
  {
    ['%', HexDigit(byte / 16), HexDigit(byte % 16)]
  }

  /** The UTF-8 bytes of a code point. */
  function Utf8(c: char): (bytes: seq<nat>)
    ensures bytes != []
    ensures forall i :: 0 <= i < |bytes| ==> bytes[i] < 256
  {
    var n := c as int;
    if n < 0x80 then [n]
    else if n < 0x800 then [0xC0 + n / 64, 0x80 + n % 64]
    else if n < 0x10000 then [0xE0 + n / 4096, 0x80 + n / 64 % 64, 0x80 + n % 64]
    else [0xF0 + n / 262144, 0x80 + n / 4096 % 64, 0x80 + n / 64 % 64, 0x80 + n % 64]
  }

  function Percents(bytes: seq<nat>): (s: string)
    requires forall i :: 0 <= i < |bytes| ==> bytes[i] < 256
    ensures Free(s, ':')
  {
    if bytes == [] then "" else Percent(bytes[0]) + Percents(bytes[1..])
  }

  function EncodeURIComponent(s: string): (r: string)
    ensures Free(r, ':')
  {
    if s == "" then ""
    else (if Unreserved(s[0]) then [s[0]] else Percents(Utf8(s[0]))) + EncodeURIComponent(s[1..])
  }

  // ----- the printer

  function Render(value: SegmentValue): (r: string)
    ensures Free(r, ':')
  {
    match value
    case Undefined => "x"
    case Null => "x"
    case Bool(b) => if b then "1" else "0"
    case NonFinite => "x"
    case Number(text) => text
    case Chars(s) => if s == "" then "x" else EncodeURIComponent(s)
  }

  function RenderSegment(segment: Segment): string {
    segment.name + ":" + Render(segment.value)
  }

  function Join(parts: seq<string>, separator: string): string {
    if parts == [] then ""
    else if |parts| == 1 then parts[0]
    else parts[0] + separator + Join(parts[1..], separator)
  }

  function RenderAll(segments: seq<Segment>): (parts: seq<string>)
    ensures |parts| == |segments|
  {
    if segments == [] then [] else [RenderSegment(segments[0])] + RenderAll(segments[1..])
  }

  function Build(prefix: string, segments: seq<Segment>): Result {
    if prefix == "" then PrefixRequired else Key(prefix + Join(RenderAll(segments), "-"))
  }

  // ----- injectivity

  ghost predicate SameNames(a: seq<Segment>, b: seq<Segment>) {
    |a| == |b| && forall i :: 0 <= i < |a| ==> a[i].name == b[i].name && Free(a[i].name, ':')
  }

  ghost predicate SameRenderings(a: seq<Segment>, b: seq<Segment>) {
    |a| == |b| && forall i :: 0 <= i < |a| ==> Render(a[i].value) == Render(b[i].value)
  }

  /** A common suffix can be cancelled. */
  lemma CancelSuffix(a: string, b: string, suffix: string)
    requires a + suffix == b + suffix
    ensures a == b
  {
    assert |a| == |b|;
    assert a == (a + suffix)[..|a|] && b == (b + suffix)[..|b|];
  }

  /** Though values may hold "-", the first ":" after a value ends the next name. */
  lemma ValueBeforeName(v: string, w: string, name: string, r: string, t: string)
    requires Free(v, ':') && Free(w, ':') && Free(name, ':')
    requires v + "-" + (name + ":" + r) == w + "-" + (name + ":" + t)
    ensures v == w && name + ":" + r == name + ":" + t
  {
    var suffix := "-" + name;
    assert v + "-" + (name + ":" + r) == (v + suffix) + [':'] + r;
    assert w + "-" + (name + ":" + t) == (w + suffix) + [':'] + t;
    SplitAtFirst(v + suffix, w + suffix, ':', r, t);
    CancelSuffix(v, w, suffix);
  }

  /** What follows the first name and its colon. */
  function Tail(s: seq<Segment>): string
    requires s != []
  {
    var value := Render(s[0].value);
    if |s| == 1 then value else value + "-" + (s[1].name + ":" + Tail(s[1..]))
  }

  lemma {:induction false} JoinIsTail(s: seq<Segment>)
    requires s != []
    ensures Join(RenderAll(s), "-") == s[0].name + ":" + Tail(s)
  {
    var parts := RenderAll(s);
    if |s| > 1 {
      JoinIsTail(s[1..]);
      assert parts[1..] == RenderAll(s[1..]);
      assert s[1..][0] == s[1];
      var rest := s[1].name + ":" + Tail(s[1..]);
      assert Join(parts, "-") == RenderSegment(s[0]) + "-" + rest;
      assert RenderSegment(s[0]) + "-" + rest == s[0].name + ":" + (Render(s[0].value) + "-" + rest);
    }
  }

  lemma {:induction false} TailInjective(a: seq<Segment>, b: seq<Segment>)
    requires a != [] && SameNames(a, b) && Tail(a) == Tail(b)
    ensures SameRenderings(a, b)
  {
    if |a| > 1 {
      var v, w := Render(a[0].value), Render(b[0].value);
      var tailA, tailB := Tail(a[1..]), Tail(b[1..]);
      ValueBeforeName(v, w, a[1].name, tailA, tailB);
      SplitAtFirst(a[1].name, b[1].name, ':', tailA, tailB);
      TailInjective(a[1..], b[1..]);
      forall i | 0 <= i < |a| ensures Render(a[i].value) == Render(b[i].value) {
        assert i > 0 ==> a[i] == a[1..][i - 1] && b[i] == b[1..][i - 1];
      }
    }
  }

  lemma {:induction false} SameRenderingsJoin(a: seq<Segment>, b: seq<Segment>)
    requires SameNames(a, b) && SameRenderings(a, b)
    ensures RenderAll(a) == RenderAll(b)
  {
    if a == [] {
    } else {
      SameRenderingsJoin(a[1..], b[1..]);
    }
  }

  /** Under one prefix and one list of colon-free names, two keys are equal exactly
      when all rendered values agree. */
  lemma KeysDecideRenderings(prefix: string, a: seq<Segment>, b: seq<Segment>)
    requires prefix != "" && SameNames(a, b)
    ensures Build(prefix, a) == Build(prefix, b) <==> SameRenderings(a, b)
  {
    if SameRenderings(a, b) {
      SameRenderingsJoin(a, b);
    }
    if Build(prefix, a) == Build(prefix, b) {
      var joinA, joinB := Join(RenderAll(a), "-"), Join(RenderAll(b), "-");
      assert joinA == (prefix + joinA)[|prefix|..] && joinB == (prefix + joinB)[|prefix|..];
      if a != [] {
        JoinIsTail(a);
        JoinIsTail(b);
        SplitAtFirst(a[0].name, b[0].name, ':', Tail(a), Tail(b));
        TailInjective(a, b);
      }
    }
  }

  // ----- percent-encoding loses nothing

  lemma PercentInjective(a: nat, b: nat)
    requires a < 256 && b < 256 && Percent(a) == Percent(b)
    ensures a == b
  {
    assert Percent(a)[1] == Percent(b)[1] && Percent(a)[2] == Percent(b)[2];
  }

  lemma {:induction false} PercentsInjective(a: seq<nat>, b: seq<nat>, r: string, t: string)
    requires |a| == |b|
    requires forall i :: 0 <= i < |a| ==> a[i] < 256 && b[i] < 256
    requires Percents(a) + r == Percents(b) + t
    ensures a == b && r == t
  {
    if a == [] {
      assert Percents(a) + r == r && Percents(b) + t == t;
    } else {
      var restA, restB := Percents(a[1..]) + r, Percents(b[1..]) + t;
      assert Percents(a) + r == Percent(a[0]) + restA && Percents(b) + t == Percent(b[0]) + restB;
      assert Percent(a[0]) == (Percent(a[0]) + restA)[..3] && Percent(b[0]) == (Percent(b[0]) + restB)[..3];
      PercentInjective(a[0], b[0]);
      assert restA == (Percent(a[0]) + restA)[3..] && restB == (Percent(b[0]) + restB)[3..];
      PercentsInjective(a[1..], b[1..], r, t);
      assert a == [a[0]] + a[1..] && b == [b[0]] + b[1..];
    }
  }

  /** The code point that the bytes of one character spell. */
  function CodePoint(bytes: seq<int>): int {
    if |bytes| == 1 then bytes[0]
    else if |bytes| == 2 then (bytes[0] - 0xC0) * 64 + (bytes[1] - 0x80)
    else if |bytes| == 3 then (bytes[0] - 0xE0) * 4096 + (bytes[1] - 0x80) * 64 + (bytes[2] - 0x80)
    else if |bytes| == 4 then
      (bytes[0] - 0xF0) * 262144 + (bytes[1] - 0x80) * 4096 + (bytes[2] - 0x80) * 64 + (bytes[3] - 0x80)
    else 0
  }

  lemma Utf8Spells(c: char)
    ensures CodePoint(Utf8(c)) == c as int
  {
    var n := c as int;
    var m := n / 64;
    var k := m / 64;
    assert n == m * 64 + n % 64 && m == k * 64 + m % 64 && k == k / 64 * 64 + k % 64;
    assert n / 4096 == k && n / 262144 == k / 64;
  }

  /** The first byte fixes how many bytes follow. */
  lemma Utf8Length(c: char, d: char)
    requires Utf8(c)[0] == Utf8(d)[0]
    ensures |Utf8(c)| == |Utf8(d)|
  {
    assert c as int < 0x110000 && d as int < 0x110000;
  }

  function EncodeChar(c: char): string {
    if Unreserved(c) then [c] else Percents(Utf8(c))
  }

  lemma PercentsHead(bytes: seq<nat>, r: string)
    requires bytes != [] && forall i :: 0 <= i < |bytes| ==> bytes[i] < 256
    ensures var s := Percents(bytes) + r; |s| >= 3 && s[..3] == Percent(bytes[0]) && s[0] == '%'
  {
  }

  lemma EncodeCharPrefixFree(c: char, d: char, r: string, t: string)
    requires EncodeChar(c) + r == EncodeChar(d) + t
    ensures c == d && r == t
  {
    var s := EncodeChar(c) + r;
    if !Unreserved(c) { PercentsHead(Utf8(c), r); } else { assert s[0] == c && s[1..] == r; }
    if !Unreserved(d) { PercentsHead(Utf8(d), t); } else { assert s[0] == d && s[1..] == t; }
    if !Unreserved(c) && !Unreserved(d) {
      PercentInjective(Utf8(c)[0], Utf8(d)[0]);
      Utf8Length(c, d);
      PercentsInjective(Utf8(c), Utf8(d), r, t);
      Utf8Spells(c);
      Utf8Spells(d);
      assert c as int == d as int;
    }
  }

  lemma {:induction false} EncodeInjective(s: string, t: string)
    requires EncodeURIComponent(s) == EncodeURIComponent(t)
    ensures s == t
  {
    if s == "" || t == "" {
      if s != "" { EncodedIsNotEmpty(s); }
      if t != "" { EncodedIsNotEmpty(t); }
    } else {
      EncodeCharPrefixFree(s[0], t[0], EncodeURIComponent(s[1..]), EncodeURIComponent(t[1..]));
      EncodeInjective(s[1..], t[1..]);
      assert s == [s[0]] + s[1..] && t == [t[0]] + t[1..];
    }
  }

  lemma EncodedIsNotEmpty(s: string)
    requires s != ""
    ensures EncodeURIComponent(s) != ""
  {
    if !Unreserved(s[0]) {
      PercentsHead(Utf8(s[0]), EncodeURIComponent(s[1..]));
    }
  }

  /** For non-empty texts the key decides the values themselves. */
  lemma KeysDecideTexts(prefix: string, a: seq<Segment>, b: seq<Segment>)
    requires prefix != "" && SameNames(a, b)
    requires forall i :: 0 <= i < |a| ==> a[i].value.Chars? && a[i].value != Chars("")
    requires forall i :: 0 <= i < |b| ==> b[i].value.Chars? && b[i].value != Chars("")
    ensures Build(prefix, a) == Build(prefix, b) <==> a == b
  {
    KeysDecideRenderings(prefix, a, b);
    if SameRenderings(a, b) {
      forall i | 0 <= i < |a| ensures a[i] == b[i] {
        var Chars(s) := a[i].value;
        var Chars(t) := b[i].value;
        assert Render(a[i].value) == Render(b[i].value);
        EncodeInjective(s, t);
      }
    }
  }

  // ----- which values render alike

  predicate Blank(v: SegmentValue) {
    v.Undefined? || v.Null? || v.NonFinite? || v == Chars("")
  }

  predicate Switch(b: bool, text: string) {
    text == if b then "1" else "0"
  }

  /** The same value, or two of different kinds that the printer cannot tell apart. */
  predicate Alike(v: SegmentValue, w: SegmentValue) {
    v == w || (Blank(v) && Blank(w)) || Mixed(v, w) || Mixed(w, v)
  }

  predicate Mixed(v: SegmentValue, w: SegmentValue) {
    || (Blank(v) && w == Chars("x"))
    || (v.Bool? && w.Number? && Switch(v.flag, w.text))
    || (v.Bool? && w.Chars? && Switch(v.flag, w.chars))
    || (v.Number? && w.Chars? && w.chars == v.text != "" && Free(v.text, '+'))
  }

  lemma {:induction false} UnreservedStays(s: string)
    requires forall i :: 0 <= i < |s| ==> Unreserved(s[i])
    ensures EncodeURIComponent(s) == s
  {
    if s == "" {
    } else {
      UnreservedStays(s[1..]);
    }
  }

  lemma {:induction false} PercentsHaveNoPlus(bytes: seq<nat>)
    requires forall i :: 0 <= i < |bytes| ==> bytes[i] < 256
    ensures Free(Percents(bytes), '+')
  {
    if bytes == [] {
    } else {
      PercentsHaveNoPlus(bytes[1..]);
    }
  }

  lemma {:induction false} EncodedHasNoPlus(s: string)
    ensures Free(EncodeURIComponent(s), '+')
  {
    if s == "" {
    } else {
      EncodedHasNoPlus(s[1..]);
      if !Unreserved(s[0]) {
        PercentsHaveNoPlus(Utf8(s[0]));
      }
    }
  }

  /** A text is its own rendering when it is a non-empty unreserved one. */
  lemma RendersAs(s: string, text: string)
    requires s != "" && forall i :: 0 <= i < |text| ==> Unreserved(text[i])
    ensures Render(Chars(s)) == text <==> s == text
  {
    UnreservedStays(text);
    if EncodeURIComponent(s) == text {
      EncodeInjective(s, text);
    }
  }

  lemma NumberAgainstText(text: Decimal, s: string)
    requires s != ""
    ensures Render(Number(text)) == Render(Chars(s)) <==> s == text != "" && Free(text, '+')
  {
    EncodedHasNoPlus(s);
    EncodedIsNotEmpty(s);
    if Free(text, '+') {
      assert forall i :: 0 <= i < |text| ==> text[i] in "0123456789+-.e" && text[i] != '+';
      RendersAs(s, text);
    }
  }

  lemma NumberIsNotX(text: Decimal)
    ensures text != "x"
  {
    assert "x"[0] == 'x' && 'x' !in "0123456789+-.e";
  }

  lemma TextAgainstFixed(s: string)
    requires s != ""
    ensures Render(Chars(s)) == "x" <==> s == "x"
    ensures Render(Chars(s)) == "1" <==> s == "1"
    ensures Render(Chars(s)) == "0" <==> s == "0"
    ensures "x" != "1" && "x" != "0" && "1" != "0"
  {
    RendersAs(s, "x");
    RendersAs(s, "1");
    RendersAs(s, "0");
    FixedDiffer();
  }

  lemma FixedDiffer()
    ensures "x" != "1" && "x" != "0" && "1" != "0"
  {
    assert "x"[0] != "1"[0] && "x"[0] != "0"[0] && "1"[0] != "0"[0];
  }

  lemma TextsAlike(s: string, t: string)
    ensures Render(Chars(s)) == Render(Chars(t)) <==> Alike(Chars(s), Chars(t))
  {
    if s != "" && t != "" {
      if EncodeURIComponent(s) == EncodeURIComponent(t) { EncodeInjective(s, t); }
    } else if s != "" {
      RendersAs(s, "x");
    } else if t != "" {
      RendersAs(t, "x");
    }
  }

  lemma TextAlike(s: string, w: SegmentValue)
    ensures Render(Chars(s)) == Render(w) <==> Alike(Chars(s), w)
  {
    match w
    case Chars(t) => TextsAlike(s, t);
    case Number(text) => if s != "" { NumberAgainstText(text, s); } else { NumberIsNotX(text); }
    case _ => if s != "" { TextAgainstFixed(s); } else { FixedDiffer(); }
  }

  /** Which values share a rendering, kind by kind. */
  lemma RenderingsAlike(v: SegmentValue, w: SegmentValue)
    ensures Render(v) == Render(w) <==> Alike(v, w)
  {
    if v.Chars? {
      TextAlike(v.chars, w);
    } else if w.Chars? {
      TextAlike(w.chars, v);
    } else {
      FixedDiffer();
      if v.Number? { NumberIsNotX(v.text); }
      if w.Number? { NumberIsNotX(w.text); }
    }
  }

  /** Under one prefix and one list of colon-free names, two keys are equal exactly
      when the values are alike pairwise. */
  lemma KeysDecideValues(prefix: string, a: seq<Segment>, b: seq<Segment>)
    requires prefix != "" && SameNames(a, b)
    ensures Build(prefix, a) == Build(prefix, b) <==> forall i :: 0 <= i < |a| ==> Alike(a[i].value, b[i].value)
  {
    KeysDecideRenderings(prefix, a, b);
    forall i | 0 <= i < |a| ensures Render(a[i].value) == Render(b[i].value) <==> Alike(a[i].value, b[i].value) {
      RenderingsAlike(a[i].value, b[i].value);
    }
  }

  /** A prefix is required, and starts the key. */
  lemma KeyStartsWithPrefix(prefix: string, segments: seq<Segment>)
    ensures Build(prefix, segments).PrefixRequired? <==> prefix == ""
    ensures prefix != "" ==> prefix <= Build(prefix, segments).key
  {
  }

  /** Names and renderings are joined by ":", segments by "-". */
  lemma KeyLayout(prefix: string, first: Segment, second: Segment)
    requires prefix != ""
    ensures Build(prefix, [first, second]) == Key(
      prefix + (first.name + ":" + Render(first.value) + "-" + (second.name + ":" + Render(second.value))))
  {
    var segments := [first, second];
    var parts := RenderAll(segments);
    assert segments[1..] == [second] && [second][1..] == [];
    assert RenderAll([second]) == [RenderSegment(second)];
    assert parts == [RenderSegment(first), RenderSegment(second)];
    assert parts[1..] == [RenderSegment(second)];
    assert Join([RenderSegment(second)], "-") == RenderSegment(second);
    assert Join(parts, "-") == RenderSegment(first) + "-" + RenderSegment(second);
  }
}
