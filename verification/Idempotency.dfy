/**
 The idempotency record kept for one request key, and the pure helpers of the
 service. The protocol over interleaved callers is in IdempotencyProtocol.
 */
module Idempotency {
  import opened Wrappers
  import opened Redis
  import opened Text

  const COMMITTED_TTL: nat := 24 * 60 * 60 * 1000
  const PENDING_TTL: nat := 120 * 1000
  const KEY_PREFIX := "comm:idemp"

  /** What a handler produced: the status sent and the body, None for undefined. */
  datatype Outcome = Outcome(statusCode: nat, response: Option<string>)

  datatype Record =
    | Pending(requestHash: string, createdAt: nat)
    | Committed(requestHash: string, createdAt: nat, outcome: Outcome)

  /** A stored text either parses to a complete record or reads as no record. */
  datatype Raw = Unreadable | Readable(record: Record)

  datatype BeginResult = New | Replay(outcome: Outcome) | Conflict | InProgress

  datatype Input = Input(actorId: string, idempotencyKey: string, scopeKey: string, requestHash: string)

  function GetRecord(store: Store<Raw>, now: nat, key: string): Option<Record> {
    match Get<Raw>(store, now, key)
    case Some(Readable(record)) => Some(record)
    case _ => None
  }

  function ToBeginResult(record: Record, requestHash: string): BeginResult {
    if record.requestHash != requestHash then Conflict
    else match record
      case Committed(_, _, outcome) => Replay(outcome)
      case Pending(_, _) => InProgress
  }

  // ----- keys

  predicate IsSpace(c: char) {
    || c == ' ' || '\t' <= c <= '\r' || c == '\U{00A0}' || c == '\U{1680}' || '\U{2000}' <= c <= '\U{200A}'
    || c == '\U{2028}' || c == '\U{2029}' || c == '\U{202F}' || c == '\U{205F}' || c == '\U{3000}' || c == '\U{FEFF}'
  }

  function TrimStart(s: string): string {
    if s != "" && IsSpace(s[0]) then TrimStart(s[1..]) else s
  }

  function TrimEnd(s: string): string {
    if s != "" && IsSpace(s[|s| - 1]) then TrimEnd(s[..|s| - 1]) else s
  }

  function ReplaceColons(s: string): (r: string)
    ensures |r| == |s| && Free(r, ':')
    ensures forall i :: 0 <= i < |s| ==> r[i] == if s[i] == ':' then '_' else s[i]
  {
    seq(|s|, i requires 0 <= i < |s| => if s[i] == ':' then '_' else s[i])
  }

  function SanitizeSegment(value: string): string {
    ReplaceColons(TrimEnd(TrimStart(value)))
  }

  function BuildRedisKey(input: Input): string {
    KEY_PREFIX + ":" + (SanitizeSegment(input.actorId) + ":" +
      (SanitizeSegment(input.scopeKey) + ":" + SanitizeSegment(input.idempotencyKey)))
  }

  // ----- what sanitizing keeps

  /** The characters that String.prototype.trim removes. */
  const WHITE_SPACE := "\t\n\U{000B}\U{000C}\r \U{00A0}\U{1680}"
    + "\U{2000}\U{2001}\U{2002}\U{2003}\U{2004}\U{2005}\U{2006}\U{2007}\U{2008}\U{2009}\U{200A}"
    + "\U{2028}\U{2029}\U{202F}\U{205F}\U{3000}\U{FEFF}"

  lemma SpacesAreWhiteSpace(c: char)
    ensures IsSpace(c) <==> c in WHITE_SPACE
  {
  }

  /** What is left of a value without the white space around it. */
  ghost predicate IsCore(value: string, core: string) {
    exists i, j :: CoreAt(value, core, i, j)
  }

  ghost predicate CoreAt(value: string, core: string, i: int, j: int) {
    && 0 <= i <= j <= |value| && core == value[i..j]
    && (forall k :: 0 <= k < i || j <= k < |value| ==> value[k] in WHITE_SPACE)
    && (core != "" ==> core[0] !in WHITE_SPACE && core[|core| - 1] !in WHITE_SPACE)
  }

  lemma {:induction false} TrimStartDrops(s: string) returns (i: nat)
    ensures i <= |s| && TrimStart(s) == s[i..] && forall k :: 0 <= k < i ==> IsSpace(s[k])
    ensures TrimStart(s) != "" ==> !IsSpace(TrimStart(s)[0])
  {
    if s == "" || !IsSpace(s[0]) {
      i := 0;
    } else {
      i := TrimStartDrops(s[1..]);
      i := i + 1;
      assert forall k :: 0 < k < i ==> s[k] == s[1..][k - 1];
    }
  }

  lemma {:induction false} TrimEndDrops(s: string) returns (j: nat)
    ensures j <= |s| && TrimEnd(s) == s[..j] && forall k :: j <= k < |s| ==> IsSpace(s[k])
    ensures TrimEnd(s) != "" ==> !IsSpace(TrimEnd(s)[|TrimEnd(s)| - 1])
  {
    if s == "" || !IsSpace(s[|s| - 1]) {
      j := |s|;
    } else {
      j := TrimEndDrops(s[..|s| - 1]);
    }
  }

  lemma TrimIsCore(value: string)
    ensures IsCore(value, TrimEnd(TrimStart(value)))
  {
    var i := TrimStartDrops(value);
    var rest := TrimStart(value);
    var j := TrimEndDrops(rest);
    var core := TrimEnd(rest);
    assert core == value[i..i + j];
    forall k | 0 <= k < i || i + j <= k < |value| ensures value[k] in WHITE_SPACE {
      assert k >= i ==> value[k] == rest[k - i];
      SpacesAreWhiteSpace(value[k]);
    }
    if core != "" {
      SpacesAreWhiteSpace(core[0]);
      SpacesAreWhiteSpace(core[|core| - 1]);
    }
    assert CoreAt(value, core, i, i + j);
  }

  /** A core that is not empty starts no earlier and ends no later than another. */
  lemma CoreWithin(value: string, a: string, b: string, i: int, j: int, k: int, l: int)
    requires CoreAt(value, a, i, j) && CoreAt(value, b, k, l) && a != ""
    ensures k <= i && j <= l
  {
    assert value[i] == a[0] && value[j - 1] == a[|a| - 1];
  }

  lemma CoreIsUnique(value: string, a: string, b: string)
    requires IsCore(value, a) && IsCore(value, b)
    ensures a == b
  {
    var i, j :| CoreAt(value, a, i, j);
    var k, l :| CoreAt(value, b, k, l);
    if a != "" {
      CoreWithin(value, a, b, i, j, k, l);
    }
    if b != "" {
      CoreWithin(value, b, a, k, l, i, j);
    }
  }

  /** One text up to white space around it and colons for underscores. */
  ghost predicate SamePart(x: string, y: string) {
    exists a, b :: IsCore(x, a) && IsCore(y, b) && SameUpToColons(a, b)
  }

  predicate SameUpToColons(a: string, b: string) {
    |a| == |b| && forall i :: 0 <= i < |a| ==> a[i] == b[i] || (a[i] in ":_" && b[i] in ":_")
  }

  lemma ReplacedAlike(a: string, b: string)
    ensures ReplaceColons(a) == ReplaceColons(b) <==> SameUpToColons(a, b)
  {
    if ReplaceColons(a) == ReplaceColons(b) {
      forall i | 0 <= i < |a| ensures a[i] == b[i] || (a[i] in ":_" && b[i] in ":_") {
        assert ReplaceColons(a)[i] == ReplaceColons(b)[i];
      }
    }
  }

  lemma SanitizedAlike(x: string, y: string)
    ensures SanitizeSegment(x) == SanitizeSegment(y) <==> SamePart(x, y)
  {
    var a, b := TrimEnd(TrimStart(x)), TrimEnd(TrimStart(y));
    TrimIsCore(x);
    TrimIsCore(y);
    ReplacedAlike(a, b);
    if SamePart(x, y) {
      var c, d :| IsCore(x, c) && IsCore(y, d) && SameUpToColons(c, d);
      CoreIsUnique(x, a, c);
      CoreIsUnique(y, b, d);
    }
  }

  /** Prefix, actor, scope and key, in this order, joined by colons. */
  lemma RedisKeyLayout(input: Input)
    ensures BuildRedisKey(input) == "comm:idemp:" + SanitizeSegment(input.actorId) + ":"
      + SanitizeSegment(input.scopeKey) + ":" + SanitizeSegment(input.idempotencyKey)
  {
    var actor, scope, key :=
      SanitizeSegment(input.actorId), SanitizeSegment(input.scopeKey), SanitizeSegment(input.idempotencyKey);
    assert KEY_PREFIX + ":" == "comm:idemp:";
    assert "comm:idemp:" + (actor + ":" + (scope + ":" + key)) == "comm:idemp:" + actor + ":" + scope + ":" + key;
  }

  lemma SameKeyIffSanitizedAlike(a: Input, b: Input)
    ensures BuildRedisKey(a) == BuildRedisKey(b) <==>
      && SanitizeSegment(a.actorId) == SanitizeSegment(b.actorId)
      && SanitizeSegment(a.scopeKey) == SanitizeSegment(b.scopeKey)
      && SanitizeSegment(a.idempotencyKey) == SanitizeSegment(b.idempotencyKey)
  {
    if BuildRedisKey(a) == BuildRedisKey(b) {
      var tailA := SanitizeSegment(a.scopeKey) + ":" + SanitizeSegment(a.idempotencyKey);
      var tailB := SanitizeSegment(b.scopeKey) + ":" + SanitizeSegment(b.idempotencyKey);
      var restA := SanitizeSegment(a.actorId) + ":" + tailA;
      var restB := SanitizeSegment(b.actorId) + ":" + tailB;
      assert restA == BuildRedisKey(a)[|KEY_PREFIX| + 1..];
      assert restB == BuildRedisKey(b)[|KEY_PREFIX| + 1..];
      SplitAtFirst(SanitizeSegment(a.actorId), SanitizeSegment(b.actorId), ':', tailA, tailB);
      SplitAtFirst(SanitizeSegment(a.scopeKey), SanitizeSegment(b.scopeKey), ':',
                   SanitizeSegment(a.idempotencyKey), SanitizeSegment(b.idempotencyKey));
    }
  }

  /** Two requests share a record exactly when actor, scope and idempotency key agree
      up to white space around them and colons for underscores. */
  lemma SameKeyIffSameParts(a: Input, b: Input)
    ensures BuildRedisKey(a) == BuildRedisKey(b) <==>
      SamePart(a.actorId, b.actorId) && SamePart(a.scopeKey, b.scopeKey) && SamePart(a.idempotencyKey, b.idempotencyKey)
  {
    SameKeyIffSanitizedAlike(a, b);
    SanitizedAlike(a.actorId, b.actorId);
    SanitizedAlike(a.scopeKey, b.scopeKey);
    SanitizedAlike(a.idempotencyKey, b.idempotencyKey);
  }

  /** Sanitizing loses information: a colon and an underscore give one key. */
  lemma DistinctRequestsCanShareAKey(a: Input, b: Input)
    requires a == Input("u", "k", "a:b", "h") && b == Input("u", "k", "a_b", "h")
    ensures a != b && BuildRedisKey(a) == BuildRedisKey(b)
  {
    assert a.scopeKey[1] != b.scopeKey[1];
    assert TrimStart("a:b") == "a:b" && TrimStart("a_b") == "a_b";
    assert TrimEnd("a:b") == "a:b" && TrimEnd("a_b") == "a_b";
    assert SanitizeSegment("a:b") == SanitizeSegment("a_b");
  }
}
