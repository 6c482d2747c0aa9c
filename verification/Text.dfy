/** The string operations the wire parsers use: split, join, trim, prefix. */
module Text {

  /** Which characters a language's trim removes. */
  type Space = char -> bool

  /** JavaScript's trim: white space and line terminators of ECMA-262, the byte-order mark included. */
  predicate JsSpace(c: char) {
    || '\t' <= c <= '\r' || SpaceSeparator(c) || c == '\U{2028}' || c == '\U{2029}' || c == '\U{FEFF}'
  }

  /** Python's str.strip: the characters str.isspace accepts. */
  predicate PythonSpace(c: char) {
    || '\t' <= c <= '\r' || '\U{1C}' <= c <= '\U{1F}' || c == '\U{85}'
    || SpaceSeparator(c) || c == '\U{2028}' || c == '\U{2029}'
  }

  /** Unicode category Zs. */
  predicate SpaceSeparator(c: char) {
    || c == ' ' || c == '\U{A0}' || c == '\U{1680}' || '\U{2000}' <= c <= '\U{200A}'
    || c == '\U{202F}' || c == '\U{205F}' || c == '\U{3000}'
  }

  /** The same characters listed: the white space and line terminators of sections 12.2 and 12.3 of ECMA-262. */
  lemma JsSpacesListed(c: char)
    ensures JsSpace(c) <==>
            || c in "\U{9}\U{A}\U{B}\U{C}\U{D}\U{20}\U{A0}\U{1680}\U{2000}\U{2001}\U{2002}\U{2003}\U{2004}\U{2005}"
            || c in "\U{2006}\U{2007}\U{2008}\U{2009}\U{200A}\U{2028}\U{2029}\U{202F}\U{205F}\U{3000}\U{FEFF}"
  {
  }

  predicate Blank(sp: Space, s: string) {
    forall i :: 0 <= i < |s| ==> sp(s[i])
  }

  /** The first visible position at or after i. */
  function StartOf(sp: Space, s: string, i: nat): (r: nat)
    requires i <= |s|
    ensures i <= r <= |s| && (r < |s| ==> !sp(s[r]))
    ensures forall k :: i <= k < r ==> sp(s[k])
    decreases |s| - i
  {
    if i < |s| && sp(s[i]) then StartOf(sp, s, i + 1) else i
  }

  /** The end of the last visible character before n. */
  function EndOf(sp: Space, s: string, n: nat): (r: nat)
    requires n <= |s|
    ensures r <= n && (r > 0 ==> !sp(s[r - 1]))
    ensures forall k :: r <= k < n ==> sp(s[k])
  {
    if n > 0 && sp(s[n - 1]) then EndOf(sp, s, n - 1) else n
  }

  function TrimStart(sp: Space, s: string): (t: string) {
    s[StartOf(sp, s, 0)..]
  }

  function TrimEnd(sp: Space, s: string): (t: string) {
    s[..EndOf(sp, s, |s|)]
  }

  function Trim(sp: Space, s: string): (t: string)
    ensures |t| <= |s|
  {
    TrimEnd(sp, TrimStart(sp, s))
  }

  /** No whitespace at either edge. */
  predicate Tight(sp: Space, s: string) {
    s == "" || (!sp(s[0]) && !sp(s[|s| - 1]))
  }

  lemma StartOfUnique(sp: Space, s: string, r: nat)
    requires r <= |s| && (r < |s| ==> !sp(s[r])) && forall k :: 0 <= k < r ==> sp(s[k])
    ensures StartOf(sp, s, 0) == r
  {
  }

  lemma EndOfUnique(sp: Space, s: string, r: nat)
    requires r <= |s| && (r > 0 ==> !sp(s[r - 1])) && forall k :: r <= k < |s| ==> sp(s[k])
    ensures EndOf(sp, s, |s|) == r
  {
  }

  lemma TrimTight(sp: Space, s: string)
    ensures Tight(sp, Trim(sp, s))
    ensures Trim(sp, s) == s <==> Tight(sp, s)
  {
    if Tight(sp, s) {
      StartOfUnique(sp, s, 0);
      EndOfUnique(sp, s, |s|);
    }
  }

  /** Trimming removes nothing but whitespace, from the edges; with TrimTight this fixes the result. */
  lemma TrimCuts(sp: Space, s: string) returns (before: string, after: string)
    ensures s == before + Trim(sp, s) + after && Blank(sp, before) && Blank(sp, after)
  {
    var t := TrimStart(sp, s);
    before, after := s[..StartOf(sp, s, 0)], t[EndOf(sp, t, |t|)..];
    assert s == before + t && t == Trim(sp, s) + after;
  }

  lemma TrimPadded(sp: Space, before: string, s: string, after: string)
    requires Blank(sp, before) && Blank(sp, after) && Tight(sp, s)
    ensures Trim(sp, before + s + after) == s
  {
    var whole := before + s + after;
    if s == "" {
      assert Blank(sp, whole);
      TrimEmpty(sp, whole);
    } else {
      var n := |before|;
      assert whole[n] == s[0];
      StartOfUnique(sp, whole, n);
      assert whole[n..] == s + after;
      assert s == s[..|s| - 1] + [s[|s| - 1]];
      TrimEndAfter(sp, s, after);
      EndOfUnique(sp, after, 0);
    }
  }

  predicate StartsWith(s: string, prefix: string) {
    prefix <= s
  }

  /** s.split(c): the pieces between occurrences of c. */
  function Split(s: string, c: char): (parts: seq<string>)
    ensures parts != []
  {
    if s == "" then [""]
    else
      var rest := Split(s[1..], c);
      if s[0] == c then [""] + rest else [[s[0]] + rest[0]] + rest[1..]
  }

  /** parts.join(c) */
  function Join(parts: seq<string>, c: char): (s: string) {
    if parts == [] then ""
    else if |parts| == 1 then parts[0]
    else parts[0] + [c] + Join(parts[1..], c)
  }

  ghost predicate Free(parts: seq<string>, c: char) {
    forall p :: p in parts ==> c !in p
  }

  lemma {:induction false} SplitIsFree(s: string, c: char)
    ensures Free(Split(s, c), c)
  {
    if s != "" {
      SplitIsFree(s[1..], c);
      assert Split(s[1..], c)[0] in Split(s[1..], c);
    }
  }

  lemma {:induction false} JoinSplit(s: string, c: char)
    ensures Join(Split(s, c), c) == s
  {
    if s != "" {
      var rest := Split(s[1..], c);
      JoinSplit(s[1..], c);
      HeadAndTail(s);
      if s[0] == c {
        assert ([""] + rest)[1..] == rest;
      } else {
        JoinHead(s[0], rest, c);
      }
    }
  }

  lemma JoinHead(x: char, parts: seq<string>, c: char)
    requires parts != []
    ensures Join([[x] + parts[0]] + parts[1..], c) == [x] + Join(parts, c)
  {
    var longer := [[x] + parts[0]] + parts[1..];
    assert longer[1..] == parts[1..];
  }

  lemma {:induction false} SplitFree(s: string, c: char)
    requires c !in s
    ensures Split(s, c) == [s]
  {
    if s != "" {
      SplitFree(s[1..], c);
      assert s == [s[0]] + s[1..];
    }
  }

  /** A first piece without the separator splits off unchanged. */
  lemma {:induction false} SplitFirst(p: string, rest: string, c: char)
    requires c !in p
    ensures Split(p + [c] + rest, c) == [p] + Split(rest, c)
  {
    var s := p + [c] + rest;
    if p == "" {
      assert s[1..] == rest;
    } else {
      SplitFirst(p[1..], rest, c);
      assert s[1..] == p[1..] + [c] + rest;
      assert p == [p[0]] + p[1..];
    }
  }

  /** Splitting undoes joining, for pieces without the separator. */
  lemma {:induction false} SplitJoin(parts: seq<string>, c: char)
    requires parts != [] && Free(parts, c)
    ensures Split(Join(parts, c), c) == parts
  {
    assert parts[0] in parts;
    if |parts| == 1 {
      SplitFree(parts[0], c);
    } else {
      SplitJoin(parts[1..], c);
      SplitFirst(parts[0], Join(parts[1..], c), c);
      assert parts == [parts[0]] + parts[1..];
    }
  }

  lemma {:induction false} JoinPush(parts: seq<string>, p: string, c: char)
    requires parts != []
    ensures Join(parts + [p], c) == Join(parts, c) + [c] + p
  {
    if |parts| == 1 {
      assert (parts + [p])[1..] == [p];
    } else {
      JoinPush(parts[1..], p, c);
      assert (parts + [p])[1..] == parts[1..] + [p];
    }
  }

  lemma {:induction false} SplitPrefix(parts: seq<string>, rest: string, c: char)
    requires parts != [] && Free(parts, c)
    ensures Split(Join(parts, c) + [c] + rest, c) == parts + Split(rest, c)
  {
    assert parts[0] in parts;
    if |parts| == 1 {
      SplitFirst(parts[0], rest, c);
    } else {
      SplitPrefix(parts[1..], rest, c);
      SplitPrefixStep(parts[0], parts[1..], rest, c);
      HeadAndTail(parts);
    }
  }

  lemma SplitPrefixStep(p: string, parts: seq<string>, rest: string, c: char)
    requires parts != [] && c !in p
    requires Split(Join(parts, c) + [c] + rest, c) == parts + Split(rest, c)
    ensures Split(Join([p] + parts, c) + [c] + rest, c) == [p] + parts + Split(rest, c)
  {
    JoinCons(p, parts, c);
    Regroup(p, Join(parts, c), rest, c);
    SplitFirst(p, Join(parts, c) + [c] + rest, c);
    Associate([p], parts, Split(rest, c));
  }

  lemma JoinCons(p: string, parts: seq<string>, c: char)
    requires parts != []
    ensures Join([p] + parts, c) == p + [c] + Join(parts, c)
  {
    assert ([p] + parts)[1..] == parts;
  }

  lemma Associate<T>(x: seq<T>, y: seq<T>, z: seq<T>)
    ensures (x + y) + z == x + (y + z)
  {
  }

  lemma Regroup(x: string, y: string, z: string, c: char)
    ensures (x + [c] + y) + [c] + z == x + [c] + (y + [c] + z)
  {
  }

  lemma HeadAndTail<T>(s: seq<T>)
    requires s != []
    ensures s == [s[0]] + s[1..] && s == s[..|s| - 1] + [s[|s| - 1]]
  {
  }

  /** Splitting can resume from the last piece: what was split before it is settled. */
  lemma SplitResume(a: string, b: string, c: char)
    ensures var n := |Split(a, c)| - 1;
            Split(a + b, c) == Split(a, c)[..n] + Split(Split(a, c)[n] + b, c)
  {
    var parts := Split(a, c);
    var n := |parts| - 1;
    SplitIsFree(a, c);
    JoinSplit(a, c);
    HeadAndTail(parts);
    if n > 0 {
      ResumeAfter(parts[..n], parts[n], b, c);
    }
  }

  lemma ResumeAfter(settled: seq<string>, last: string, b: string, c: char)
    requires settled != [] && Free(settled, c)
    ensures Split(Join(settled + [last], c) + b, c) == settled + Split(last + b, c)
  {
    JoinPush(settled, last, c);
    SplitPrefix(settled, last + b, c);
    Associate(Join(settled, c) + [c], last, b);
  }

  /** Text before the first separator extends the first piece. */
  lemma {:induction false} SplitAfter(p: string, s: string, c: char)
    requires c !in p
    ensures Split(p + s, c) == [p + Split(s, c)[0]] + Split(s, c)[1..]
  {
    if p == "" {
      assert p + s == s;
      HeadAndTail(Split(s, c));
      assert p + Split(s, c)[0] == Split(s, c)[0];
    } else {
      SplitAfter(p[1..], s, c);
      assert (p + s)[1..] == p[1..] + s;
      var rest := Split(p[1..] + s, c);
      assert [p[0]] + rest[0] == p + Split(s, c)[0];
      assert rest[1..] == Split(s, c)[1..];
    }
  }

  /** A text that holds the separator is longer than each of its pieces. */
  lemma {:induction false} PiecesShorter(s: string, c: char)
    ensures c in s ==> forall p <- Split(s, c) :: |p| < |s|
    ensures forall p <- Split(s, c) :: |p| <= |s|
    ensures |Split(s, c)[0]| == |s| <==> c !in s
  {
    if s != "" {
      PiecesShorter(s[1..], c);
      HeadAndTail(s);
      var rest := Split(s[1..], c);
      assert forall p <- rest :: |p| < |s|;
    }
  }

  lemma TrimEmpty(sp: Space, s: string)
    ensures Trim(sp, s) == "" <==> Blank(sp, s)
  {
    var i := StartOf(sp, s, 0);
    if i < |s| {
      var t := TrimStart(sp, s);
      assert t[0] == s[i];
      assert EndOf(sp, t, |t|) > 0;
    }
  }

  /** Trimming the end stops at a part that ends in a visible character. */
  lemma TrimEndAfter(sp: Space, p: string, s: string)
    requires p != "" && !sp(p[|p| - 1])
    ensures TrimEnd(sp, p + s) == p + TrimEnd(sp, s)
  {
    var e := EndOf(sp, s, |s|);
    forall k | |p| + e <= k < |p + s| ensures sp((p + s)[k]) {
      assert (p + s)[k] == s[k - |p|];
    }
    EndOfUnique(sp, p + s, |p| + e);
    assert (p + s)[..|p| + e] == p + s[..e];
  }

  lemma TrimPrefix(sp: Space, p: string, s: string)
    requires p != "" && Tight(sp, p)
    ensures Trim(sp, p + s) == p + TrimEnd(sp, s)
  {
    StartOfUnique(sp, p + s, 0);
    TrimEndAfter(sp, p, s);
  }

  /** Only the last of the joined pieces may hold the separator. */
  lemma SplitJoinLast(parts: seq<string>, last: string, c: char)
    requires Free(parts, c)
    ensures Split(Join(parts + [last], c), c) == parts + Split(last, c)
  {
    if parts == [] {
      assert parts + [last] == [last] && parts + Split(last, c) == Split(last, c);
    } else {
      JoinPush(parts, last, c);
      SplitPrefix(parts, last, c);
    }
  }
}
