/** Stream identifiers and deduplication keys (internal/event/stream.go). */
module Identity {
  import opened Text
  import opened Events

  datatype Stream = Stream(
    clusterId: string, group: string, version: string,
    resource: string, namespace: string, selector: string)

  // ---------------------------------------------------------------- percent-encoding

  /** Go strings are byte strings. */
  predicate Bytes(s: string) { forall i :: 0 <= i < |s| ==> s[i] as int < 256 }

  /** The bytes `url.PathEscape` leaves alone: unreserved ones and `$ & + : = @`. */
  predicate Plain(c: char) {
    ('a' <= c <= 'z') || ('A' <= c <= 'Z') || ('0' <= c <= '9') || c in "-_.~$&+:=@"
  }

  const HEX: string := "0123456789ABCDEF"

  function Escape1(c: char): string
    requires c as int < 256
  {
    if Plain(c) then [c] else ['%', HEX[c as int / 16], HEX[c as int % 16]]
  }

  function PathEscape(s: string): string
    requires Bytes(s)
  {
    if s == [] then [] else Escape1(s[0]) + PathEscape(s[1..])
  }

  function HexValue(c: char): (v: Option<int>)
    ensures v.Some? ==> 0 <= v.value < 16
  {
    if '0' <= c <= '9' then Some(c as int - '0' as int)
    else if 'a' <= c <= 'f' then Some(c as int - 'a' as int + 10)
    else if 'A' <= c <= 'F' then Some(c as int - 'A' as int + 10)
    else None
  }

  /** `None` is the "invalid URL escape" error. */
  function PathUnescape(s: string): Option<string> {
    if s == [] then Some([])
    else if s[0] != '%' then
      match PathUnescape(s[1..])
      case Some(rest) => Some([s[0]] + rest)
      case None => None
    else if |s| < 3 || HexValue(s[1]).None? || HexValue(s[2]).None? then None
    else
      match PathUnescape(s[3..])
      case Some(rest) => Some([(HexValue(s[1]).value * 16 + HexValue(s[2]).value) as char] + rest)
      case None => None
  }

  lemma HexDigit(d: nat)
    requires d < 16
    ensures HexValue(HEX[d]) == Some(d) && HEX[d] != '/' && HEX[d] != NUL
  {
    assert HEX[0] == '0' && HEX[1] == '1' && HEX[2] == '2' && HEX[3] == '3' && HEX[4] == '4' && HEX[5] == '5';
    assert HEX[6] == '6' && HEX[7] == '7' && HEX[8] == '8' && HEX[9] == '9' && HEX[10] == 'A' && HEX[11] == 'B';
    assert HEX[12] == 'C' && HEX[13] == 'D' && HEX[14] == 'E' && HEX[15] == 'F';
  }

  lemma {:induction false} UnescapePlain(c: char, rest: string)
    requires c != '%'
    ensures PathUnescape([c] + rest) ==
            if PathUnescape(rest).None? then None else Some([c] + PathUnescape(rest).value)
  {
    assert ([c] + rest)[1..] == rest;
  }

  lemma {:induction false} UnescapeHex(d: nat, e: nat, rest: string)
    requires d < 16 && e < 16
    ensures PathUnescape(['%', HEX[d], HEX[e]] + rest) ==
            if PathUnescape(rest).None? then None else Some([(d * 16 + e) as char] + PathUnescape(rest).value)
  {
    HexDigit(d);
    HexDigit(e);
    var head := ['%', HEX[d], HEX[e]];
    var s := head + rest;
    assert s[0] == head[0] && s[1] == head[1] && s[2] == head[2];
    assert head[0] == '%' && s[0] == '%' && s[1] == HEX[d] && s[2] == HEX[e] && s[3..] == rest;
  }

  lemma Escape1IsSafe(c: char)
    requires c as int < 256
    ensures Lacks(Escape1(c), '/') && Lacks(Escape1(c), NUL)
  {
    if !Plain(c) {
      HexDigit(c as int / 16);
      HexDigit(c as int % 16);
    }
  }

  /** An escaped selector decodes to itself, and holds neither '/' nor NUL. */
  lemma {:induction false} EscapeRoundTrip(s: string)
    requires Bytes(s)
    ensures PathUnescape(PathEscape(s)) == Some(s)
    ensures Lacks(PathEscape(s), '/') && Lacks(PathEscape(s), NUL)
  {
    if s != [] {
      EscapeRoundTrip(s[1..]);
      var c, rest := s[0], PathEscape(s[1..]);
      Escape1IsSafe(c);
      assert s == [c] + s[1..];
      if Plain(c) { UnescapePlain(c, rest); } else { UnescapeHex(c as int / 16, c as int % 16, rest); }
    }
  }

  // ---------------------------------------------------------------- stream identifiers

  predicate SlashFree(s: Stream) {
    && Lacks(s.clusterId, '/') && Lacks(s.group, '/') && Lacks(s.version, '/')
    && Lacks(s.resource, '/') && Lacks(s.namespace, '/')
  }

  function Id(s: Stream): string
    requires Bytes(s.selector)
  {
    Join([s.clusterId, s.group, s.version, s.resource, s.namespace, PathEscape(s.selector)], '/')
  }

  /** `None` is a malformed identifier. */
  function ParseId(id: string): Option<Stream> {
    var parts := Split(id, '/');
    if |parts| != 6 then None
    else
      match PathUnescape(parts[5])
      case None => None
      case Some(selector) => Some(Stream(parts[0], parts[1], parts[2], parts[3], parts[4], selector))
  }

  lemma PartsLackSlash(s: Stream)
    requires Bytes(s.selector)
    ensures var parts := [s.clusterId, s.group, s.version, s.resource, s.namespace, PathEscape(s.selector)];
            Lacks(PathEscape(s.selector), '/') ==> (AllLack(parts, '/') <==> SlashFree(s))
  {
    var parts := [s.clusterId, s.group, s.version, s.resource, s.namespace, PathEscape(s.selector)];
    assert parts[0] == s.clusterId && parts[1] == s.group && parts[2] == s.version;
    assert parts[3] == s.resource && parts[4] == s.namespace && parts[5] == PathEscape(s.selector);
  }

  /** Parsing an identifier gives back the stream exactly when no component but the
      selector holds a '/': the selector may hold anything. */
  lemma IdRoundTrip(s: Stream)
    requires Bytes(s.selector)
    ensures ParseId(Id(s)) == Some(s) <==> SlashFree(s)
  {
    EscapeRoundTrip(s.selector);
    var parts := [s.clusterId, s.group, s.version, s.resource, s.namespace, PathEscape(s.selector)];
    JoinCounts(parts, '/');
    SplitCounts(Id(s), '/');
    PartsLackSlash(s);
    if SlashFree(s) { SplitOfJoin(parts, '/'); }
  }

  // ---------------------------------------------------------------- deduplication keys

  function KeyFields(streamId: string, ref: ResourceRef, w: WatchType, observedAt: int): seq<string> {
    [streamId, ref.namespace, ref.name, ref.uid, ref.resourceVersion, WatchText(w)]
    + if observedAt != 0 then [DecInt(observedAt)] else []
  }

  /** The deduplication key. SHA-256 in hex is read as the identity on its preimage;
      `observedAt` is the Unix time in nanoseconds of a synthetic event, 0 for a live one. */
  function EventId(streamId: string, ref: ResourceRef, w: WatchType, observedAt: int): string {
    Join(KeyFields(streamId, ref, w, observedAt), NUL)
  }

  predicate NulFree(streamId: string, ref: ResourceRef) {
    && Lacks(streamId, NUL) && Lacks(ref.namespace, NUL) && Lacks(ref.name, NUL)
    && Lacks(ref.uid, NUL) && Lacks(ref.resourceVersion, NUL)
  }

  lemma KeyFieldsLackNul(streamId: string, ref: ResourceRef, w: WatchType, observedAt: int)
    requires NulFree(streamId, ref)
    ensures AllLack(KeyFields(streamId, ref, w, observedAt), NUL)
  {
    assert Lacks(WatchText(w), NUL);
    assert Lacks(DecInt(observedAt), NUL);
  }

  lemma DecIntIsInjective(m: int, n: int)
    requires DecInt(m) == DecInt(n)
    ensures m == n
  {
    assert m < 0 <==> !IsDigit(DecInt(m)[0]);
    assert n < 0 <==> !IsDigit(DecInt(n)[0]);
    if m < 0 {
      assert Dec(-m) == DecInt(m)[1..] && Dec(-n) == DecInt(n)[1..];
      DecIsInjective(-m, -n);
    } else {
      DecIsInjective(m, n);
    }
  }

  /** Equal keys name one event: same stream, object, version, watch type and observation;
      so a live key is never a synthetic one. */
  lemma EventIdIsInjective(s1: string, r1: ResourceRef, w1: WatchType, t1: int,
                           s2: string, r2: ResourceRef, w2: WatchType, t2: int)
    requires NulFree(s1, r1) && NulFree(s2, r2)
    requires EventId(s1, r1, w1, t1) == EventId(s2, r2, w2, t2)
    ensures s1 == s2 && r1.namespace == r2.namespace && r1.name == r2.name && r1.uid == r2.uid
    ensures r1.resourceVersion == r2.resourceVersion && w1 == w2 && t1 == t2
  {
    KeyFieldsLackNul(s1, r1, w1, t1);
    KeyFieldsLackNul(s2, r2, w2, t2);
    var f1, f2 := KeyFields(s1, r1, w1, t1), KeyFields(s2, r2, w2, t2);
    JoinIsInjective(f1, f2, NUL);
    assert f1[0] == s1 && f1[1] == r1.namespace && f1[2] == r1.name && f1[3] == r1.uid;
    assert f1[4] == r1.resourceVersion && f1[5] == WatchText(w1);
    if t1 != 0 && t2 != 0 {
      assert f1[6] == DecInt(t1) && f2[6] == DecInt(t2);
      DecIntIsInjective(t1, t2);
    }
  }

  lemma EventIdIsNotEmpty(streamId: string, ref: ResourceRef, w: WatchType, observedAt: int)
    ensures EventId(streamId, ref, w, observedAt) != ""
  {
    var f := KeyFields(streamId, ref, w, observedAt);
    assert Join(f, NUL) == f[0] + [NUL] + Join(f[1..], NUL);
  }

  // ---------------------------------------------------------------- the texts

  /** cluster/group/version/resource/namespace/selector. */
  lemma IdText(s: Stream)
    requires Bytes(s.selector)
    ensures Id(s) == s.clusterId + "/" + s.group + "/" + s.version + "/" + s.resource + "/" + s.namespace + "/" +
                     PathEscape(s.selector)
  {
    var parts := [s.clusterId, s.group, s.version, s.resource, s.namespace, PathEscape(s.selector)];
    JoinSix(parts, '/');
  }

  lemma {:induction false} JoinSix(f: seq<string>, c: char)
    requires |f| == 6
    ensures Join(f, c) == f[0] + [c] + f[1] + [c] + f[2] + [c] + f[3] + [c] + f[4] + [c] + f[5]
  {
    assert f[1..][1..] == f[2..] && f[2..][1..] == f[3..] && f[3..][1..] == f[4..] && f[4..][1..] == f[5..];
    assert Join(f[5..], c) == f[5] && Join(f[4..], c) == f[4] + [c] + f[5];
    assert Join(f[3..], c) == f[3] + [c] + Join(f[4..], c) && Join(f[2..], c) == f[2] + [c] + Join(f[3..], c);
    assert Join(f[1..], c) == f[1] + [c] + Join(f[2..], c) && Join(f, c) == f[0] + [c] + Join(f[1..], c);
  }
}
