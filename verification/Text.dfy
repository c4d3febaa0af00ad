/** Byte strings: their lexicographic order, decimal numerals and the values they denote, and
    joining on a separator with its inverse, splitting. Also the option type of the project. */
module Text {

  datatype Option<+T> = None | Some(value: T) {
    function GetOr(default: T): T { if Some? then value else default }
  }

  const NUL: char := '\0'

  // ---------------------------------------------------------------- order

  /** Strict byte order, as Go's `<` on strings. */
  predicate Before(a: string, b: string) {
    b != [] && (a == [] || a[0] < b[0] || (a[0] == b[0] && Before(a[1..], b[1..])))
  }

  predicate AtMost(a: string, b: string) {
    a == b || Before(a, b)
  }

  lemma {:induction false} BeforeIsStrict(a: string)
    ensures !Before(a, a)
  {
    if a != [] { BeforeIsStrict(a[1..]); }
  }

  lemma {:induction false} BeforeIsTotal(a: string, b: string)
    ensures a == b || Before(a, b) || Before(b, a)
  {
    if a != [] && b != [] && a[0] == b[0] {
      BeforeIsTotal(a[1..], b[1..]);
      assert a == [a[0]] + a[1..] && b == [b[0]] + b[1..];
    }
  }

  lemma {:induction false} BeforeIsTransitive(a: string, b: string, c: string)
    requires Before(a, b) && Before(b, c)
    ensures Before(a, c)
  {
    if a != [] && a[0] == b[0] && b[0] == c[0] { BeforeIsTransitive(a[1..], b[1..], c[1..]); }
  }

  lemma {:induction false} BeforeIsAsymmetric(a: string, b: string)
    requires Before(a, b)
    ensures !Before(b, a) && a != b
  {
    BeforeIsStrict(a);
    if Before(b, a) { BeforeIsTransitive(a, b, a); }
  }

  /** A common prefix does not matter. */
  lemma {:induction false} BeforeSharedPrefix(p: string, a: string, b: string)
    ensures Before(p + a, p + b) <==> Before(a, b)
  {
    if p == [] {
      assert p + a == a && p + b == b;
    } else {
      assert (p + a)[1..] == p[1..] + a && (p + b)[1..] == p[1..] + b;
      BeforeSharedPrefix(p[1..], a, b);
    }
  }

  /** Two texts of one length that differ are ordered by their heads, whatever follows. */
  lemma {:induction false} BeforeByHead(a: string, b: string, x: string, y: string)
    requires |a| == |b| && Before(a, b)
    ensures Before(a + x, b + y)
  {
    assert (a + x)[1..] == a[1..] + x && (b + y)[1..] == b[1..] + y;
    if a[0] == b[0] { BeforeByHead(a[1..], b[1..], x, y); }
  }

  // ---------------------------------------------------------------- decimal

  predicate IsDigit(c: char) { '0' <= c <= '9' }

  predicate AllDigits(s: string) { forall i :: 0 <= i < |s| ==> IsDigit(s[i]) }

  function Digit(d: nat): (c: char)
    requires d < 10
    ensures IsDigit(c) && c as int - '0' as int == d
  {
    '0' + d as char
  }

  /** The decimal numeral of `n`, as `%d` prints it. */
  function Dec(n: nat): (s: string)
    ensures s != [] && AllDigits(s)
  {
    if n < 10 then [Digit(n)] else Dec(n / 10) + [Digit(n % 10)]
  }

  function DecInt(n: int): string {
    if n < 0 then ['-'] + Dec(-n) else Dec(n)
  }

  /** The number a run of digits denotes. */
  function Value(s: string): nat
    requires AllDigits(s)
  {
    if s == [] then 0 else 10 * Value(s[..|s| - 1]) + (s[|s| - 1] as int - '0' as int)
  }

  lemma {:induction false} ValueOfDec(n: nat)
    ensures Value(Dec(n)) == n
  {
    if n >= 10 {
      ValueOfDec(n / 10);
      assert Dec(n)[..|Dec(n)| - 1] == Dec(n / 10);
    }
  }

  lemma {:induction false} DecIsInjective(m: nat, n: nat)
    requires Dec(m) == Dec(n)
    ensures m == n
  {
    ValueOfDec(m);
    ValueOfDec(n);
  }

  // ---------------------------------------------------------------- joining

  predicate Lacks(s: string, c: char) { c !in s }

  predicate AllLack(parts: seq<string>, c: char) { forall i :: 0 <= i < |parts| ==> Lacks(parts[i], c) }

  function Join(parts: seq<string>, c: char): string
    requires parts != []
  {
    if |parts| == 1 then parts[0] else parts[0] + [c] + Join(parts[1..], c)
  }

  /** Where `c` first stands in `s`, or the length of `s`. */
  function Find(s: string, c: char): (i: nat)
    ensures i <= |s|
    ensures forall k :: 0 <= k < i ==> s[k] != c
    ensures i < |s| ==> s[i] == c
  {
    if s == [] || s[0] == c then 0 else 1 + Find(s[1..], c)
  }

  /** Cuts `s` at every `c`. */
  function Split(s: string, c: char): (parts: seq<string>)
    ensures parts != []
    decreases |s|
  {
    var i := Find(s, c);
    if i == |s| then [s] else [s[..i]] + Split(s[i + 1..], c)
  }

  lemma {:induction false} FindAfter(head: string, tail: string, c: char)
    requires Lacks(head, c)
    ensures Find(head + [c] + tail, c) == |head|
  {
    var s := head + [c] + tail;
    assert s[|head|] == c;
    assert forall i :: 0 <= i < |head| ==> s[i] == head[i] && head[i] != c;
  }

  lemma {:induction false} FindNothing(s: string, c: char)
    requires Lacks(s, c)
    ensures Find(s, c) == |s|
  {
    assert forall k :: 0 <= k < |s| ==> s[k] != c;
  }

  lemma {:induction false} SplitFirst(head: string, tail: string, c: char)
    requires Lacks(head, c)
    ensures Split(head + [c] + tail, c) == [head] + Split(tail, c)
  {
    var s := head + [c] + tail;
    FindAfter(head, tail, c);
    assert s[..|head|] == head && s[|head| + 1..] == tail;
  }

  /** Splitting undoes joining when no part holds the separator. */
  lemma {:induction false} SplitOfJoin(parts: seq<string>, c: char)
    requires parts != [] && AllLack(parts, c)
    ensures Split(Join(parts, c), c) == parts
    decreases |parts|
  {
    if |parts| == 1 {
      FindNothing(parts[0], c);
    } else {
      SplitFirst(parts[0], Join(parts[1..], c), c);
      SplitOfJoin(parts[1..], c);
      assert [parts[0]] + parts[1..] == parts;
    }
  }

  lemma {:induction false} SplitCounts(s: string, c: char)
    ensures |Split(s, c)| == 1 + multiset(s)[c]
    decreases |s|
  {
    var i := Find(s, c);
    if i == |s| {
      assert c !in s;
    } else {
      assert s == s[..i] + [c] + s[i + 1..];
      assert c !in s[..i];
      SplitCounts(s[i + 1..], c);
    }
  }

  /** A joined text holds its separators, and more when a part holds one. */
  lemma {:induction false} JoinCounts(parts: seq<string>, c: char)
    requires parts != []
    ensures multiset(Join(parts, c))[c] >= |parts| - 1
    ensures multiset(Join(parts, c))[c] == |parts| - 1 <==> AllLack(parts, c)
    decreases |parts|
  {
    if |parts| > 1 {
      JoinCounts(parts[1..], c);
      assert Join(parts, c) == parts[0] + [c] + Join(parts[1..], c);
      assert Lacks(parts[0], c) <==> multiset(parts[0])[c] == 0;
      assert AllLack(parts, c) <==> Lacks(parts[0], c) && AllLack(parts[1..], c) by {
        assert parts == [parts[0]] + parts[1..];
      }
    } else {
      assert Lacks(parts[0], c) <==> multiset(parts[0])[c] == 0;
    }
  }

  lemma {:induction false} JoinIsInjective(xs: seq<string>, ys: seq<string>, c: char)
    requires xs != [] && ys != [] && AllLack(xs, c) && AllLack(ys, c)
    requires Join(xs, c) == Join(ys, c)
    ensures xs == ys
  {
    SplitOfJoin(xs, c);
    SplitOfJoin(ys, c);
  }

  /** A key `head c tail` determines its parts when the head lacks `c`. */
  lemma FirstCutIsInjective(h1: string, t1: string, h2: string, t2: string, c: char)
    requires Lacks(h1, c) && Lacks(h2, c)
    requires h1 + [c] + t1 == h2 + [c] + t2
    ensures h1 == h2 && t1 == t2
  {
    FindAfter(h1, t1, c);
    FindAfter(h2, t2, c);
    var s := h1 + [c] + t1;
    assert s[..|h1|] == h1 && s[..|h2|] == h2 && s[|h1| + 1..] == t1 && s[|h2| + 1..] == t2;
  }
}
