/** Field paths: the printer of the diff (internal/materialize/diff.go) and the parser of
    the web UI (web/src/views/diff.js). */
module Paths {
  import opened Text
  import opened Seqs

  datatype Tok = Key(k: string) | Idx(i: nat)

  type Path = seq<Tok>

  // ---------------------------------------------------------------- printing

  /** `strings.ReplaceAll(s, c, "\" + c)`. */
  function Backslash(s: string, c: char): string {
    if s == [] then [] else (if s[0] == c then ['\\', c] else [s[0]]) + Backslash(s[1..], c)
  }

  function EscapePathSegment(k: string): string {
    Backslash(Backslash(Backslash(Backslash(k, '\\'), '.'), '['), ']')
  }

  function JoinPath(parent: string, key: string): string {
    if parent == "" then EscapePathSegment(key) else parent + ['.'] + EscapePathSegment(key)
  }

  function IndexText(i: nat): string { ['['] + Dec(i) + [']'] }

  /** The text the diff shows for a path, built outside in as `diffValue` does. */
  function Print(p: Path): string {
    if p == [] then ""
    else
      var parent := Print(p[..|p| - 1]);
      match p[|p| - 1]
      case Key(k) => JoinPath(parent, k)
      case Idx(i) => parent + IndexText(i)
  }

  // ---------------------------------------------------------------- the four passes escape each character

  predicate Special(c: char) { c == '\\' || c == '.' || c == '[' || c == ']' }

  function Esc(k: string): string {
    if k == [] then [] else (if Special(k[0]) then ['\\', k[0]] else [k[0]]) + Esc(k[1..])
  }

  lemma {:induction false} BackslashConcat(s: string, t: string, c: char)
    ensures Backslash(s + t, c) == Backslash(s, c) + Backslash(t, c)
  {
    if s == [] {
      assert s + t == t;
    } else {
      assert (s + t)[1..] == s[1..] + t;
      BackslashConcat(s[1..], t, c);
    }
  }

  lemma {:induction false} Backslash1(a: char, c: char)
    ensures Backslash([a], c) == if a == c then ['\\', c] else [a]
  {
    assert [a][1..] == [];
  }

  lemma {:induction false} Backslash2(a: char, b: char, c: char)
    requires a != c
    ensures Backslash([a, b], c) == [a] + if b == c then ['\\', c] else [b]
  {
    assert [a, b] == [a] + [b];
    BackslashConcat([a], [b], c);
    Backslash1(a, c);
    Backslash1(b, c);
  }

  /** One character through the four passes. */
  lemma EscapeOne(a: char)
    ensures EscapePathSegment([a]) == if Special(a) then ['\\', a] else [a]
  {
    Backslash1(a, '\\');
    Backslash1(a, '.');
    Backslash1(a, '[');
    Backslash1(a, ']');
    if Special(a) {
      Backslash2('\\', a, '.');
      Backslash2('\\', a, '[');
      Backslash2('\\', a, ']');
    }
  }

  lemma EscapeConcat(s: string, t: string)
    ensures EscapePathSegment(s + t) == EscapePathSegment(s) + EscapePathSegment(t)
  {
    var s1, t1 := Backslash(s, '\\'), Backslash(t, '\\');
    var s2, t2 := Backslash(s1, '.'), Backslash(t1, '.');
    var s3, t3 := Backslash(s2, '['), Backslash(t2, '[');
    BackslashConcat(s, t, '\\');
    BackslashConcat(s1, t1, '.');
    BackslashConcat(s2, t2, '[');
    BackslashConcat(s3, t3, ']');
  }

  lemma {:induction false} EscapeIsCharwise(k: string)
    ensures EscapePathSegment(k) == Esc(k)
  {
    if k != [] {
      assert k == [k[0]] + k[1..];
      EscapeConcat([k[0]], k[1..]);
      EscapeOne(k[0]);
      EscapeIsCharwise(k[1..]);
    }
  }

  // ---------------------------------------------------------------- inside in

  /** The text of the tokens after the first. */
  function Tail(p: Path): string {
    if p == [] then ""
    else (match p[0] case Key(k) => ['.'] + Esc(k) case Idx(i) => IndexText(i)) + Tail(p[1..])
  }

  predicate NoEmptyTop(p: Path) { p != [] && p[0].Key? ==> p[0].k != "" }

  function Text0(p: Path): string {
    if p == [] then ""
    else (match p[0] case Key(k) => Esc(k) case Idx(i) => IndexText(i)) + Tail(p[1..])
  }

  lemma {:induction false} TailSnoc(p: Path, x: Tok)
    ensures Tail(p + [x]) == Tail(p) + match x case Key(k) => ['.'] + Esc(k) case Idx(i) => IndexText(i)
  {
    if p == [] {
      assert p + [x] == [x] && [x][1..] == [];
    } else {
      assert (p + [x])[0] == p[0] && (p + [x])[1..] == p[1..] + [x];
      TailSnoc(p[1..], x);
    }
  }

  lemma Text0Snoc(p: Path, x: Tok)
    requires p != []
    ensures Text0(p + [x]) == Text0(p) + match x case Key(k) => ['.'] + Esc(k) case Idx(i) => IndexText(i)
  {
    assert (p + [x])[0] == p[0] && (p + [x])[1..] == p[1..] + [x];
    TailSnoc(p[1..], x);
  }

  lemma {:induction false} PrintSnoc(p: Path, x: Tok)
    ensures Print(p + [x]) ==
            if x.Idx? then Print(p) + IndexText(x.i)
            else if Print(p) == "" then Esc(x.k) else Print(p) + (['.'] + Esc(x.k))
  {
    assert (p + [x])[..|p|] == p;
    if x.Key? { EscapeIsCharwise(x.k); }
  }

  lemma PrintOne(x: Tok)
    ensures Print([x]) == Text0([x])
  {
    PrintSnoc([], x);
    assert [] + [x] == [x] && [x][1..] == [];
  }

  lemma {:induction false} PrintIsText(p: Path)
    requires NoEmptyTop(p)
    ensures Print(p) == Text0(p)
  {
    if p != [] {
      var init, x := p[..|p| - 1], p[|p| - 1];
      assert p == init + [x];
      PrintSnoc(init, x);
      if init == [] {
        PrintOne(x);
      } else {
        assert NoEmptyTop(init);
        PrintIsText(init);
        Text0Snoc(init, x);
      }
    }
  }

  // ---------------------------------------------------------------- a reader, inverse to the printer

  /** Reads an escaped key up to an unescaped '.' or '['. */
  function ReadKey(s: string): (r: (string, string))
    ensures |r.1| <= |s|
  {
    if s == "" || s[0] == '.' || s[0] == '[' then ("", s)
    else if s[0] == '\\' && |s| > 1 then var r := ReadKey(s[2..]); ([s[1]] + r.0, r.1)
    else var r := ReadKey(s[1..]); ([s[0]] + r.0, r.1)
  }

  function ReadTail(s: string): Option<Path>
    decreases |s|
  {
    if s == "" then Some([])
    else if s[0] == '.' then
      var r := ReadKey(s[1..]);
      match ReadTail(r.1) case Some(p) => Some([Key(r.0)] + p) case None => None
    else if s[0] == '[' then
      var j := Find(s[1..], ']');
      if j == |s| - 1 || !AllDigits(s[1..1 + j]) then None
      else match ReadTail(s[j + 2..]) case Some(p) => Some([Idx(Value(s[1..1 + j]))] + p) case None => None
    else None
  }

  function Read(s: string): Option<Path> {
    if s == "" || s[0] == '[' then ReadTail(s)
    else
      var r := ReadKey(s);
      match ReadTail(r.1) case Some(p) => Some([Key(r.0)] + p) case None => None
  }

  predicate AtToken(s: string) { s == "" || s[0] == '.' || s[0] == '[' }

  lemma {:induction false} ReadKeyFirst(k: string, rest: string)
    requires k != ""
    ensures var r := ReadKey(Esc(k[1..]) + rest); ReadKey(Esc(k) + rest) == ([k[0]] + r.0, r.1)
  {
    var c, more := k[0], Esc(k[1..]) + rest;
    if Special(c) {
      assert Esc(k) + rest == ['\\', c] + more;
    } else {
      assert Esc(k) + rest == [c] + more;
    }
  }

  lemma {:induction false} ReadKeyOfEsc(k: string, rest: string)
    requires AtToken(rest)
    ensures ReadKey(Esc(k) + rest) == (k, rest)
  {
    if k == [] {
      assert Esc(k) + rest == rest;
    } else {
      ReadKeyOfEsc(k[1..], rest);
      ReadKeyFirst(k, rest);
      assert [k[0]] + k[1..] == k;
    }
  }

  lemma {:induction false} IndexTextCut(i: nat, rest: string)
    ensures var s := IndexText(i) + rest;
            && s[0] == '[' && Find(s[1..], ']') == |Dec(i)| && s[1..1 + |Dec(i)|] == Dec(i)
            && |Dec(i)| + 2 <= |s| && s[|Dec(i)| + 2..] == rest
  {
    var s := IndexText(i) + rest;
    assert s[1..] == Dec(i) + [']'] + rest;
    assert Lacks(Dec(i), ']');
    FindAfter(Dec(i), rest, ']');
  }

  lemma {:induction false} ReadTailDot(s: string)
    ensures ReadTail(['.'] + s) ==
            var r := ReadKey(s); match ReadTail(r.1) case Some(p) => Some([Key(r.0)] + p) case None => None
  {
    assert (['.'] + s)[1..] == s;
  }

  lemma {:induction false} ReadTailKey(k: string, rest: string)
    requires AtToken(rest)
    ensures ReadTail(['.'] + Esc(k) + rest) ==
            match ReadTail(rest) case Some(p) => Some([Key(k)] + p) case None => None
  {
    Regroup(['.'], Esc(k), rest);
    ReadTailDot(Esc(k) + rest);
    ReadKeyOfEsc(k, rest);
  }

  lemma {:induction false} ReadTailIndex(i: nat, rest: string)
    ensures ReadTail(IndexText(i) + rest) ==
            match ReadTail(rest) case Some(p) => Some([Idx(i)] + p) case None => None
  {
    IndexTextCut(i, rest);
    ValueOfDec(i);
  }

  lemma {:induction false} ReadTailOfTail(p: Path)
    ensures ReadTail(Tail(p)) == Some(p)
  {
    if p != [] {
      ReadTailOfTail(p[1..]);
      assert [p[0]] + p[1..] == p;
      match p[0] {
        case Key(k) => ReadTailKey(k, Tail(p[1..]));
        case Idx(i) => ReadTailIndex(i, Tail(p[1..]));
      }
    }
  }

  lemma {:induction false} ReadFirstKey(k: string, rest: string)
    requires k != "" && AtToken(rest)
    ensures Read(Esc(k) + rest) ==
            match ReadTail(rest) case Some(p) => Some([Key(k)] + p) case None => None
  {
    ReadKeyOfEsc(k, rest);
    assert (Esc(k) + rest)[0] == Esc(k)[0];
  }

  lemma {:induction false} ReadFirstIndex(i: nat, rest: string)
    ensures Read(IndexText(i) + rest) == ReadTail(IndexText(i) + rest)
  {
    assert (IndexText(i) + rest)[0] == '[';
  }

  lemma ReadOfText(p: Path)
    requires NoEmptyTop(p)
    ensures Read(Text0(p)) == Some(p)
  {
    if p != [] {
      var rest := Tail(p[1..]);
      ReadTailOfTail(p[1..]);
      assert [p[0]] + p[1..] == p;
      match p[0] {
        case Key(k) => ReadFirstKey(k, rest);
        case Idx(i) =>
          ReadTailIndex(i, rest);
          ReadFirstIndex(i, rest);
      }
    }
  }

  /** Reading undoes printing, for every path whose first key is not empty. */
  lemma {:induction false} ReadOfPrint(p: Path)
    requires NoEmptyTop(p)
    ensures Read(Print(p)) == Some(p)
  {
    PrintIsText(p);
    ReadOfText(p);
  }

  /** Printing is injective on paths whose first key is not empty. */
  lemma {:induction false} PrintIsInjective(p: Path, q: Path)
    requires NoEmptyTop(p) && NoEmptyTop(q) && Print(p) == Print(q)
    ensures p == q
  {
    ReadOfPrint(p);
    ReadOfPrint(q);
  }

  /** The path the printer sees: empty leading keys leave no trace in the text. */
  function Visible(p: Path): (v: Path)
    ensures NoEmptyTop(v)
  {
    if p != [] && p[0] == Key("") then Visible(p[1..]) else p
  }

  lemma {:induction false} PrintDropsEmptyTop(p: Path)
    requires p != [] && p[0] == Key("")
    ensures Print(p) == Print(p[1..])
  {
    var init, x := p[..|p| - 1], p[|p| - 1];
    EscapeIsCharwise("");
    if |p| == 1 {
      assert init == [] && p[1..] == [];
    } else {
      PrintDropsEmptyTop(init);
      assert p[1..] == init[1..] + [x];
    }
  }

  lemma {:induction false} PrintOfVisible(p: Path)
    ensures Print(p) == Print(Visible(p))
  {
    if p != [] && p[0] == Key("") {
      PrintDropsEmptyTop(p);
      PrintOfVisible(p[1..]);
    }
  }

  /** Two paths print alike exactly when they are one path up to empty leading keys. */
  lemma {:induction false} PrintsAlike(p: Path, q: Path)
    ensures Print(p) == Print(q) <==> Visible(p) == Visible(q)
  {
    PrintOfVisible(p);
    PrintOfVisible(q);
    if Print(p) == Print(q) { PrintIsInjective(Visible(p), Visible(q)); }
  }

  // ---------------------------------------------------------------- the web UI's parser

  /** A token of `pathTokens`; `index` is the text between the brackets, before `Number`. */
  datatype UiTok = UiTok(key: string, index: Option<string>)

  function Push(toks: seq<UiTok>, key: string): seq<UiTok> {
    if key != "" then toks + [UiTok(key, None)] else toks
  }

  function PushIndex(toks: seq<UiTok>, key: string, idx: string): seq<UiTok> {
    if key != "" then toks + [UiTok(key, Some(idx))]
    else if toks != [] then toks[|toks| - 1 := toks[|toks| - 1].(index := Some(idx))]
    else toks
  }

  /** What the loop makes of the rest of the text. */
  function Scan(s: string, key: string, toks: seq<UiTok>): seq<UiTok>
    decreases |s|
  {
    if s == "" then Push(toks, key)
    else if s[0] == '\\' && |s| > 1 then Scan(s[2..], key + [s[1]], toks)
    else if s[0] == '.' then Scan(s[1..], "", Push(toks, key))
    else if s[0] == '[' then
      var j := Find(s[1..], ']');
      Scan(if j + 2 <= |s| then s[j + 2..] else "", "", PushIndex(toks, key, s[1..1 + j]))
    else Scan(s[1..], key + [s[0]], toks)
  }

  // One turn of the loop each.

  lemma {:induction false} ScanEscaped(c: char, rest: string, key: string, toks: seq<UiTok>)
    ensures Scan(['\\', c] + rest, key, toks) == Scan(rest, key + [c], toks)
  {
    assert (['\\', c] + rest)[2..] == rest;
  }

  lemma {:induction false} ScanPlain(c: char, rest: string, key: string, toks: seq<UiTok>)
    requires c != '.' && c != '[' && (c == '\\' ==> rest == "")
    ensures Scan([c] + rest, key, toks) == Scan(rest, key + [c], toks)
  {
    assert ([c] + rest)[1..] == rest;
  }

  lemma {:induction false} ScanIndex(idx: string, rest: string, key: string, toks: seq<UiTok>)
    requires Lacks(idx, ']')
    ensures Scan(['['] + idx + [']'] + rest, key, toks) == Scan(rest, "", PushIndex(toks, key, idx))
  {
    var s := ['['] + idx + [']'] + rest;
    assert s[1..] == idx + [']'] + rest;
    FindAfter(idx, rest, ']');
    assert s[1..1 + |idx|] == idx && s[|idx| + 2..] == rest;
  }

  lemma {:induction false} ScanOpenIndex(idx: string, key: string, toks: seq<UiTok>)
    requires Lacks(idx, ']')
    ensures Scan(['['] + idx, key, toks) == Scan("", "", PushIndex(toks, key, idx))
  {
    var s := ['['] + idx;
    assert s[1..] == idx && s[1..1 + |idx|] == idx;
    FindNothing(idx, ']');
  }

  /** The part of `p` from `i` on. */
  function From(p: string, i: nat): string { if i <= |p| then p[i..] else "" }

  lemma {:induction false} ScanBracket(p: string, i: nat, i': nat, key: string, toks: seq<UiTok>, idx: string)
    requires i + 1 < i' <= |p| + 1 && p[i] == '[' && (i' <= |p| ==> p[i' - 1] == ']')
    requires idx == p[i + 1..i' - 1] && Lacks(idx, ']')
    ensures Scan(From(p, i), key, toks) == Scan(From(p, i'), "", PushIndex(toks, key, idx))
  {
    var j := i' - 1;
    if j < |p| {
      assert p[i..] == ['['] + idx + [']'] + p[j + 1..];
      ScanIndex(idx, p[j + 1..], key, toks);
    } else {
      assert p[i..] == ['['] + idx;
      ScanOpenIndex(idx, key, toks);
    }
  }

  /** The inner loop: the text up to the closing bracket. */
  method TakeIndex(p: string, i: nat) returns (idx: string, j: nat)
    requires i < |p|
    ensures i < j <= |p| && idx == p[i + 1..j] && Lacks(idx, ']') && (j < |p| ==> p[j] == ']')
  {
    j := i + 1;
    idx := "";
    while j < |p| && p[j] != ']'
      invariant i + 1 <= j <= |p| && idx == p[i + 1..j]
      invariant Lacks(idx, ']')
    {
      idx := idx + [p[j]];
      j := j + 1;
    }
  }

  method AddIndex(key: string, toks: seq<UiTok>, idx: string) returns (toks': seq<UiTok>)
    ensures toks' == PushIndex(toks, key, idx)
  {
    toks' := toks;
    if key != "" {
      toks' := toks + [UiTok(key, Some(idx))];
    } else if |toks| > 0 {
      toks' := toks[|toks| - 1 := toks[|toks| - 1].(index := Some(idx))];
    }
  }

  /** A turn of the loop at an opening bracket. */
  method IndexTurn(p: string, i: nat, key: string, toks: seq<UiTok>) returns (i': nat, toks': seq<UiTok>)
    requires i < |p| && p[i] == '['
    ensures i < i' <= |p| + 1
    ensures Scan(From(p, i), key, toks) == Scan(From(p, i'), "", toks')
  {
    var idx, j := TakeIndex(p, i);
    toks' := AddIndex(key, toks, idx);
    i' := j + 1;
    ScanBracket(p, i, i', key, toks, idx);
  }

  /** A turn of the loop at any other character. */
  method CharTurn(p: string, i: nat, key: string, toks: seq<UiTok>) returns (i': nat, key': string, toks': seq<UiTok>)
    requires i < |p| && p[i] != '['
    ensures i < i' <= |p| + 1
    ensures Scan(From(p, i), key, toks) == Scan(From(p, i'), key', toks')
  {
    var c := p[i];
    i', key', toks' := i, key, toks;
    if c == '\\' && i + 1 < |p| {
      key' := key + [p[i + 1]];
      i' := i' + 1;
    } else if c == '.' {
      if key != "" { toks' := toks + [UiTok(key, None)]; }
      key' := "";
    } else {
      key' := key + [c];
    }
    i' := i' + 1;
  }

  method PathTokens(p: string) returns (toks: seq<UiTok>)
    ensures toks == Scan(p, "", [])
  {
    toks := [];
    var key := "";
    var i := 0;
    ghost var all := Scan(p, "", []);
    assert From(p, 0) == p;
    while i < |p|
      invariant 0 <= i <= |p| + 1
      invariant all == Scan(From(p, i), key, toks)
      decreases |p| + 1 - i
    {
      if p[i] == '[' {
        i, toks := IndexTurn(p, i, key, toks);
        key := "";
      } else {
        i, key, toks := CharTurn(p, i, key, toks);
      }
    }
    assert all == Push(toks, key);
    if key != "" { toks := toks + [UiTok(key, None)]; }
  }

  // ---------------------------------------------------------------- what the parser recovers

  datatype Piece = KeyPiece(k: string) | IndexPiece(text: string)

  function Pieces(p: Path): seq<Piece> {
    if p == [] then []
    else [match p[0] case Key(k) => KeyPiece(k) case Idx(i) => IndexPiece(Dec(i))] + Pieces(p[1..])
  }

  function Flatten(toks: seq<UiTok>): seq<Piece> {
    if toks == [] then []
    else
      var t := toks[|toks| - 1];
      Flatten(toks[..|toks| - 1]) + [KeyPiece(t.key)] + if t.index.Some? then [IndexPiece(t.index.value)] else []
  }

  /** Keys not empty, the first token a key, no two indexes in a row. */
  predicate Recoverable(p: Path) {
    && (forall i :: 0 <= i < |p| && p[i].Key? ==> p[i].k != "")
    && (forall i :: 0 <= i < |p| && p[i].Idx? ==> i > 0 && p[i - 1].Key?)
  }

  lemma {:induction false} FlattenPushIndex(toks: seq<UiTok>, key: string, idx: string)
    requires key != ""
    ensures Flatten(PushIndex(toks, key, idx)) == Flatten(toks) + [KeyPiece(key), IndexPiece(idx)]
  {
    assert (toks + [UiTok(key, Some(idx))])[..|toks|] == toks;
  }

  lemma {:induction false} ScanEsc(k: string, rest: string, key: string, toks: seq<UiTok>)
    ensures Scan(Esc(k) + rest, key, toks) == Scan(rest, key + k, toks)
  {
    if k == [] {
      assert Esc(k) + rest == rest && key + k == key;
    } else {
      var c, more := k[0], Esc(k[1..]) + rest;
      ScanEsc(k[1..], rest, key + [c], toks);
      assert key + [c] + k[1..] == key + k;
      if Special(c) {
        assert Esc(k) + rest == ['\\', c] + more;
        ScanEscaped(c, more, key, toks);
      } else {
        assert Esc(k) + rest == [c] + more;
        ScanPlain(c, more, key, toks);
      }
    }
  }

  /** What `Recoverable` asks of the tokens after a first one. */
  predicate Follows(p: Path, key: string) {
    if p == [] then true
    else match p[0]
      case Key(k) => k != "" && Follows(p[1..], k)
      case Idx(i) => key != "" && Follows(p[1..], "")
  }

  function Pending(key: string): seq<Piece> { if key != "" then [KeyPiece(key)] else [] }

  lemma {:induction false} ScanTailKey(k: string, rest: string, key: string, toks: seq<UiTok>)
    ensures Scan(['.'] + Esc(k) + rest, key, toks) == Scan(rest, k, Push(toks, key))
  {
    assert ['.'] + Esc(k) + rest == ['.'] + (Esc(k) + rest);
    ScanEsc(k, rest, "", Push(toks, key));
    assert "" + k == k;
  }

  lemma {:induction false} ScanTailIndex(i: nat, rest: string, key: string, toks: seq<UiTok>)
    ensures Scan(IndexText(i) + rest, key, toks) == Scan(rest, "", PushIndex(toks, key, Dec(i)))
  {
    assert Lacks(Dec(i), ']');
    ScanIndex(Dec(i), rest, key, toks);
  }

  lemma {:induction false} PiecesOf(p: Path)
    requires p != []
    ensures p[0].Key? ==> Pieces(p) == [KeyPiece(p[0].k)] + Pieces(p[1..])
    ensures p[0].Idx? ==> Pieces(p) == [IndexPiece(Dec(p[0].i))] + Pieces(p[1..])
  {
  }

  ghost predicate ScansTo(p: Path, key: string, toks: seq<UiTok>) {
    Flatten(Scan(Tail(p), key, toks)) == Flatten(toks) + Pending(key) + Pieces(p)
  }

  lemma GlueKey(f: seq<Piece>, pe: seq<Piece>, k: seq<Piece>, more: seq<Piece>)
    ensures (f + pe) + k + more == f + pe + (k + more)
  {
  }

  lemma {:induction false} ScanTailAtKey(p: Path, key: string, toks: seq<UiTok>)
    requires p != [] && p[0].Key?
    ensures Scan(Tail(p), key, toks) == Scan(Tail(p[1..]), p[0].k, Push(toks, key))
  {
    ScanTailKey(p[0].k, Tail(p[1..]), key, toks);
  }

  lemma ScanTailKeyStep(p: Path, key: string, toks: seq<UiTok>)
    requires p != [] && p[0].Key? && p[0].k != "" && ScansTo(p[1..], p[0].k, Push(toks, key))
    ensures ScansTo(p, key, toks)
  {
    ScanTailAtKey(p, key, toks);
    FlattenPush(toks, key);
    PiecesOf(p);
    GlueKey(Flatten(toks), Pending(key), [KeyPiece(p[0].k)], Pieces(p[1..]));
  }

  lemma {:induction false} FlattenPush(toks: seq<UiTok>, key: string)
    ensures Flatten(Push(toks, key)) == Flatten(toks) + Pending(key)
  {
    assert key != "" ==> (toks + [UiTok(key, None)])[..|toks|] == toks;
  }

  lemma {:induction false} ScanTailAtIndex(p: Path, key: string, toks: seq<UiTok>)
    requires p != [] && p[0].Idx?
    ensures Scan(Tail(p), key, toks) == Scan(Tail(p[1..]), "", PushIndex(toks, key, Dec(p[0].i)))
  {
    ScanTailIndex(p[0].i, Tail(p[1..]), key, toks);
  }

  lemma GlueIndex(f: seq<Piece>, k: Piece, i: Piece, more: seq<Piece>)
    ensures (f + [k, i]) + [] + more == f + [k] + ([i] + more)
  {
  }

  lemma ScanTailIndexStep(p: Path, key: string, toks: seq<UiTok>)
    requires p != [] && p[0].Idx? && key != "" && ScansTo(p[1..], "", PushIndex(toks, key, Dec(p[0].i)))
    ensures ScansTo(p, key, toks)
  {
    ScanTailAtIndex(p, key, toks);
    FlattenPushIndex(toks, key, Dec(p[0].i));
    PiecesOf(p);
    GlueIndex(Flatten(toks), KeyPiece(key), IndexPiece(Dec(p[0].i)), Pieces(p[1..]));
  }

  lemma {:induction false} ScanTail(p: Path, key: string, toks: seq<UiTok>)
    requires Follows(p, key)
    ensures ScansTo(p, key, toks)
  {
    if p == [] {
    } else if p[0].Key? {
      ScanTail(p[1..], p[0].k, Push(toks, key));
      ScanTailKeyStep(p, key, toks);
    } else {
      ScanTail(p[1..], "", PushIndex(toks, key, Dec(p[0].i)));
      ScanTailIndexStep(p, key, toks);
    }
  }

  lemma {:induction false} RecoverableFollows(p: Path, key: string)
    requires forall i :: 0 <= i < |p| && p[i].Key? ==> p[i].k != ""
    requires forall i :: 0 < i < |p| && p[i].Idx? ==> p[i - 1].Key?
    requires p != [] && p[0].Idx? ==> key != ""
    ensures Follows(p, key)
  {
    if p != [] {
      var q := p[1..];
      assert forall i :: 0 <= i < |q| ==> q[i] == p[i + 1];
      RecoverableFollows(q, if p[0].Key? then p[0].k else "");
    }
  }

  // Whatever the text, the parser's tokens have keys, and at most one index each.

  predicate KeysSet(toks: seq<UiTok>) { forall i :: 0 <= i < |toks| ==> toks[i].key != "" }

  lemma {:induction false} ScanSetsKeys(s: string, key: string, toks: seq<UiTok>)
    requires KeysSet(toks)
    ensures KeysSet(Scan(s, key, toks))
    decreases |s|
  {
    if s == "" {
    } else if s[0] == '\\' && |s| > 1 {
      ScanSetsKeys(s[2..], key + [s[1]], toks);
    } else if s[0] == '.' {
      ScanSetsKeys(s[1..], "", Push(toks, key));
    } else if s[0] == '[' {
      var j := Find(s[1..], ']');
      ScanSetsKeys(if j + 2 <= |s| then s[j + 2..] else "", "", PushIndex(toks, key, s[1..1 + j]));
    } else {
      ScanSetsKeys(s[1..], key + [s[0]], toks);
    }
  }

  ghost predicate Regular(ps: seq<Piece>) {
    && (forall i :: 0 <= i < |ps| && ps[i].KeyPiece? ==> ps[i].k != "")
    && (forall i :: 0 <= i < |ps| && ps[i].IndexPiece? ==> i > 0 && ps[i - 1].KeyPiece?)
  }

  lemma {:induction false} FlattenIsRegular(toks: seq<UiTok>)
    requires KeysSet(toks)
    ensures Regular(Flatten(toks))
  {
    if toks != [] {
      FlattenIsRegular(toks[..|toks| - 1]);
    }
  }

  lemma {:induction false} PiecesAt(p: Path)
    ensures |Pieces(p)| == |p|
    ensures forall i :: 0 <= i < |p| ==>
              Pieces(p)[i] == match p[i] case Key(k) => KeyPiece(k) case Idx(i) => IndexPiece(Dec(i))
  {
    if p != [] { PiecesAt(p[1..]); }
  }

  lemma {:induction false} ScanOfPrint(p: Path)
    requires Recoverable(p)
    ensures Flatten(Scan(Print(p), "", [])) == Pieces(p)
  {
    PrintIsText(p);
    if p != [] {
      var k, rest := p[0].k, Tail(p[1..]);
      RecoverableFollows(p, "");
      ScanEsc(k, rest, "", []);
      assert "" + k == k;
      ScanTail(p[1..], k, []);
      assert Flatten([]) + Pending(k) == [KeyPiece(k)];
    }
  }

  /** PARSER AND PRINTER UNDO EACH OTHER exactly on the recoverable paths: the web UI's
      tokens of a printed path are the path's own keys and indexes if and only if it starts
      with a key, has no empty key and no two indexes in a row. */
  lemma {:induction false} ParserRecoversPath(p: Path)
    ensures Flatten(Scan(Print(p), "", [])) == Pieces(p) <==> Recoverable(p)
  {
    if Recoverable(p) {
      ScanOfPrint(p);
    } else {
      ScanSetsKeys(Print(p), "", []);
      FlattenIsRegular(Scan(Print(p), "", []));
      PiecesAt(p);
      assert !Regular(Pieces(p));
    }
  }
}
