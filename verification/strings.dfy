/** The JavaScript string operations the handlers and pages use, on strings
    modelled as sequences of characters. */
module Strings {
  import opened Base

  /** JavaScript's `\s` class, which is also the set `String.prototype.trim`
      removes: the WhiteSpace and LineTerminator characters of ECMAScript. */
  predicate IsSpace(c: char) {
    || c == ' ' || c == '\t' || c == '\n' || c == '\U{B}' || c == '\U{C}' || c == '\r'
    || c == '\U{A0}' || c == '\U{1680}' || ('\U{2000}' <= c <= '\U{200A}')
    || c == '\U{2028}' || c == '\U{2029}' || c == '\U{202F}' || c == '\U{205F}'
    || c == '\U{3000}' || c == '\U{FEFF}'
  }

  predicate IsAsciiLetter(c: char) {
    ('a' <= c <= 'z') || ('A' <= c <= 'Z')
  }

  function LowerChar(c: char): char {
    if 'A' <= c <= 'Z' then (c as int + 32) as char else c
  }

  /** `toLowerCase`, on the ASCII letters. */
  function ToLower(s: string): (r: string)
    ensures |r| == |s|
  {
    seq(|s|, i requires 0 <= i < |s| => LowerChar(s[i]))
  }

  /** `p` occurs in `s` starting at index `i`. */
  predicate OccursAt(s: string, p: string, i: nat) {
    i + |p| <= |s| && s[i..i + |p|] == p
  }

  /** `String.prototype.includes`. */
  predicate Contains(s: string, p: string) {
    exists i: nat | i <= |s| :: OccursAt(s, p, i)
  }

  lemma ContainsMiddle(a: string, b: string, c: string)
    ensures Contains(a + b + c, b)
  {
    assert (a + b + c)[|a|..|a| + |b|] == b;
    assert OccursAt(a + b + c, b, |a|);
  }

  lemma ContainsWithin(a: string, b: string, c: string, p: string)
    requires Contains(b, p)
    ensures Contains(a + b + c, p)
  {
    var i: nat :| i <= |b| && OccursAt(b, p, i);
    assert (a + b + c)[|a| + i..|a| + i + |p|] == b[i..i + |p|];
    assert OccursAt(a + b + c, p, |a| + i);
  }

  predicate EndsWith(s: string, suffix: string) {
    |suffix| <= |s| && s[|s| - |suffix|..] == suffix
  }

  /** A text assembled from six pieces contains its second and fourth piece
      and ends with its last two. */
  lemma Frame(a: string, x: string, b: string, y: string, c: string, z: string)
    ensures Contains(a + x + b + y + c + z, x)
    ensures Contains(a + x + b + y + c + z, y)
    ensures EndsWith(a + x + b + y + c + z, c + z)
  {
    var t := a + x + b + y + c + z;
    assert t[|a|..|a| + |x|] == x;
    assert OccursAt(t, x, |a|);
    assert t[|a + x + b|..|a + x + b| + |y|] == y;
    assert OccursAt(t, y, |a + x + b|);
    assert t[|t| - |c + z|..] == c + z;
  }

  function Min(a: int, b: int): int {
    if a <= b then a else b
  }

  function Max(a: int, b: int): int {
    if a >= b then a else b
  }

  /** `s.slice(0, n)`: the first `n` characters, or all of `s` when shorter. */
  function Prefix(s: string, n: nat): (r: string)
    ensures |r| == Min(n, |s|)
    ensures r <= s
  {
    s[..Min(n, |s|)]
  }

  /** `parts.join(sep)`. */
  function Join(parts: seq<string>, sep: string): string
    decreases |parts|
  {
    if |parts| == 0 then ""
    else if |parts| == 1 then parts[0]
    else parts[0] + sep + Join(parts[1..], sep)
  }

  /** Joining non-empty parts yields "" exactly when there are no parts. */
  lemma JoinEmptyIff(parts: seq<string>, sep: string)
    requires forall i :: 0 <= i < |parts| ==> parts[i] != ""
    ensures Join(parts, sep) == "" <==> parts == []
  {
    if |parts| >= 2 {
      assert |Join(parts, sep)| >= |parts[0]|;
    }
  }

  /** Appending a part to a non-empty list appends the separator and the part. */
  lemma {:induction false} JoinSnoc(parts: seq<string>, x: string, sep: string)
    requires parts != []
    ensures Join(parts + [x], sep) == Join(parts, sep) + sep + x
    decreases |parts|
  {
    if |parts| == 1 {
      assert parts + [x] == [parts[0], x];
      assert (parts + [x])[1..] == [x];
    } else {
      assert (parts + [x])[1..] == parts[1..] + [x];
      JoinSnoc(parts[1..], x, sep);
    }
  }

  /** The first index at or after `from` where `sep` occurs. */
  function IndexOfFrom(s: string, sep: string, from: nat): (r: Option<nat>)
    requires from <= |s|
    ensures r.Some? ==> from <= r.value && OccursAt(s, sep, r.value)
    ensures r.Some? ==> forall j :: from <= j < r.value ==> !OccursAt(s, sep, j)
    ensures r.None? ==> forall j :: from <= j <= |s| ==> !OccursAt(s, sep, j)
    decreases |s| - from
  {
    if OccursAt(s, sep, from) then Some(from)
    else if from == |s| then None
    else IndexOfFrom(s, sep, from + 1)
  }

  /** `s.indexOf(sep)`. */
  function IndexOf(s: string, sep: string): (r: Option<nat>)
    ensures r.Some? ==> OccursAt(s, sep, r.value)
    ensures r.Some? ==> forall j :: 0 <= j < r.value ==> !OccursAt(s, sep, j)
    ensures r.None? ==> forall j :: 0 <= j <= |s| ==> !OccursAt(s, sep, j)
  {
    IndexOfFrom(s, sep, 0)
  }

  /** `s.split(sep)` for a non-empty separator. */
  function Split(s: string, sep: string): (parts: seq<string>)
    requires sep != []
    decreases |s|
  {
    match IndexOf(s, sep)
    case None => [s]
    case Some(i) => [s[..i]] + Split(s[i + |sep|..], sep)
  }

  lemma SplitUnfold(s: string, sep: string, i: nat)
    requires sep != [] && IndexOf(s, sep) == Some(i)
    ensures Split(s, sep) == [s[..i]] + Split(s[i + |sep|..], sep)
  {
  }

  lemma JoinCons(a: string, t: seq<string>, sep: string)
    requires t != []
    ensures Join([a] + t, sep) == a + sep + Join(t, sep)
  {
    assert ([a] + t)[1..] == t;
  }

  /** Joining the pieces of a split with the same separator gives back the
      original string. */
  lemma {:induction false} JoinSplit(s: string, sep: string)
    requires sep != []
    ensures Join(Split(s, sep), sep) == s
    decreases |s|
  {
    match IndexOf(s, sep)
    case None =>
    case Some(i) =>
      var rest := s[i + |sep|..];
      SplitUnfold(s, sep, i);
      JoinSplit(rest, sep);
      JoinCons(s[..i], Split(rest, sep), sep);
      assert OccursAt(s, sep, i);
      assert s == s[..i] + s[i..i + |sep|] + rest;
  }

  /** `s.split(sep)[0]` is the text before the first separator, and
      `s.split(sep).slice(1).join(sep)` is the text after it. */
  lemma SplitHeadTail(s: string, sep: string)
    requires sep != []
    ensures IndexOf(s, sep).None? ==> Split(s, sep) == [s]
    ensures IndexOf(s, sep).Some? ==>
      var i := IndexOf(s, sep).value;
      Split(s, sep)[0] == s[..i] && Join(Split(s, sep)[1..], sep) == s[i + |sep|..]
  {
    match IndexOf(s, sep)
    case None =>
    case Some(i) =>
      var tail := s[i + |sep|..];
      var rest := Split(tail, sep);
      SplitUnfold(s, sep, i);
      JoinSplit(tail, sep);
      assert ([s[..i]] + rest)[1..] == rest;
  }

  /** The text before the first separator contains no separator. */
  lemma BeforeFirstHasNoSeparator(s: string, sep: string)
    requires sep != [] && IndexOf(s, sep).Some?
    ensures !Contains(s[..IndexOf(s, sep).value], sep)
  {
    var i := IndexOf(s, sep).value;
    forall j: nat | j <= i
      ensures !OccursAt(s[..i], sep, j)
    {
      if j + |sep| <= i {
        assert !OccursAt(s, sep, j);
        assert s[..i][j..j + |sep|] == s[j..j + |sep|];
      }
    }
  }

  /** `s.replace(/\n/g, " ")`: every newline becomes one space. */
  function ReplaceNewlines(s: string): (r: string)
    ensures |r| == |s|
    ensures '\n' !in r
    ensures forall i :: 0 <= i < |s| && s[i] != '\n' ==> r[i] == s[i]
  {
    seq(|s|, i requires 0 <= i < |s| => if s[i] == '\n' then ' ' else s[i])
  }

  /** `s` with a leading run of newlines removed. */
  function DropNewlines(s: string): (r: string)
    ensures |r| <= |s|
    ensures r == [] || r[0] != '\n'
    ensures '\n' !in s ==> r == s
    ensures forall c :: c in r ==> c in s
    ensures Without(r, '\n') == Without(s, '\n')
    decreases |s|
  {
    if s != [] && s[0] == '\n' then
      assert Without(s, '\n') == Without(s[1..], '\n');
      DropNewlines(s[1..])
    else s
  }

  /** `s` with every occurrence of `c` removed. */
  function Without(s: string, c: char): (r: string)
    decreases |s|
  {
    if s == [] then [] else (if s[0] == c then [] else [s[0]]) + Without(s[1..], c)
  }

  /** `s.replace(/\n+/g, " ")`: every maximal run of newlines becomes one space. */
  function CollapseNewlines(s: string): (r: string)
    ensures '\n' !in r
    ensures |r| <= |s|
    ensures '\n' !in s ==> r == s
    decreases |s|
  {
    if s == [] then []
    else if s[0] == '\n' then " " + CollapseNewlines(DropNewlines(s[1..]))
    else [s[0]] + CollapseNewlines(s[1..])
  }

  lemma {:induction false} WithoutConcat(a: string, b: string, c: char)
    ensures Without(a + b, c) == Without(a, c) + Without(b, c)
    decreases |a|
  {
    if a == [] {
      assert a + b == b;
    } else {
      assert (a + b)[0] == a[0];
      assert (a + b)[1..] == a[1..] + b;
      WithoutConcat(a[1..], b, c);
    }
  }

  /** Collapsing keeps every character other than newlines and spaces, in
      order: erasing spaces from the result gives the input with its newlines
      and spaces erased. */
  lemma {:induction false} CollapseKeepsText(s: string)
    ensures Without(CollapseNewlines(s), ' ') == Without(Without(s, '\n'), ' ')
    decreases |s|
  {
    if s == [] {
    } else if s[0] == '\n' {
      var d := DropNewlines(s[1..]);
      CollapseKeepsText(d);
      WithoutConcat(" ", CollapseNewlines(d), ' ');
      assert Without(s, '\n') == Without(s[1..], '\n');
    } else {
      CollapseKeepsText(s[1..]);
      WithoutConcat([s[0]], CollapseNewlines(s[1..]), ' ');
      assert Without(s, '\n') == [s[0]] + Without(s[1..], '\n');
      WithoutConcat([s[0]], Without(s[1..], '\n'), ' ');
    }
  }

  /** A run of `k` newlines. */
  function Newlines(k: nat): (r: string)
    ensures |r| == k && forall j :: 0 <= j < k ==> r[j] == '\n'
  {
    seq(k, _ => '\n')
  }

  lemma {:induction false} DropNewlinesRun(k: nat, b: string)
    requires b == [] || b[0] != '\n'
    ensures DropNewlines(Newlines(k) + b) == b
    decreases k
  {
    if k == 0 {
      assert Newlines(k) + b == b;
    } else {
      var s := Newlines(k) + b;
      assert s[0] == '\n';
      assert s[1..] == Newlines(k - 1) + b;
      DropNewlinesRun(k - 1, b);
    }
  }

  /** Dropping the leading newlines of a text that does not end in one
      stops inside it, whatever follows. */
  lemma {:induction false} DropNewlinesAppend(x: string, c: string)
    requires x != [] && x[|x| - 1] != '\n'
    ensures DropNewlines(x + c) == DropNewlines(x) + c
    ensures DropNewlines(x) != [] && DropNewlines(x)[|DropNewlines(x)| - 1] == x[|x| - 1]
    decreases |x|
  {
    assert (x + c)[0] == x[0];
    if x[0] == '\n' {
      assert (x + c)[1..] == x[1..] + c;
      DropNewlinesAppend(x[1..], c);
    }
  }

  /** Collapsing works piecewise when the cut is not inside a newline run. */
  lemma {:induction false} CollapseAppend(a: string, c: string)
    requires a == [] || a[|a| - 1] != '\n'
    ensures CollapseNewlines(a + c) == CollapseNewlines(a) + CollapseNewlines(c)
    decreases |a|
  {
    if a == [] {
      assert a + c == c;
    } else {
      assert (a + c)[0] == a[0];
      assert (a + c)[1..] == a[1..] + c;
      if a[0] != '\n' {
        CollapseAppend(a[1..], c);
      } else {
        DropNewlinesAppend(a[1..], c);
        CollapseAppend(DropNewlines(a[1..]), c);
      }
    }
  }

  /** Each maximal run of newlines, however long, becomes exactly one space. */
  lemma {:induction false} CollapseRun(a: string, k: nat, b: string)
    requires a == [] || a[|a| - 1] != '\n'
    requires k >= 1
    requires b == [] || b[0] != '\n'
    ensures CollapseNewlines(a + (Newlines(k) + b)) == CollapseNewlines(a) + (" " + CollapseNewlines(b))
  {
    CollapseAppend(a, Newlines(k) + b);
    CollapseRunHead(k, b);
  }

  lemma {:induction false} CollapseRunHead(k: nat, b: string)
    requires k >= 1
    requires b == [] || b[0] != '\n'
    ensures CollapseNewlines(Newlines(k) + b) == " " + CollapseNewlines(b)
  {
    var n := Newlines(k) + b;
    assert n[0] == '\n';
    assert n[1..] == Newlines(k - 1) + b;
    DropNewlinesRun(k - 1, b);
  }

  /** Number of whitespace characters starting at `i`. */
  function SpaceRun(s: string, i: nat): (k: nat)
    requires i <= |s|
    ensures i + k <= |s|
    ensures forall j :: i <= j < i + k ==> IsSpace(s[j])
    ensures i + k == |s| || !IsSpace(s[i + k])
    decreases |s| - i
  {
    if i < |s| && IsSpace(s[i]) then 1 + SpaceRun(s, i + 1) else 0
  }

  /** The end of `s[a..]` once its trailing whitespace is removed. */
  function TrimEndIndex(s: string, a: nat, b: nat): (e: nat)
    requires a <= b <= |s|
    ensures a <= e <= b
    ensures forall j :: e <= j < b ==> IsSpace(s[j])
    ensures e == a || !IsSpace(s[e - 1])
    decreases b
  {
    if a < b && IsSpace(s[b - 1]) then TrimEndIndex(s, a, b - 1) else b
  }

  /** `s` is a contiguous piece of `t`. */
  predicate IsInfix(s: string, t: string) {
    exists a: nat | a <= |t| :: OccursAt(t, s, a)
  }

  /** `r` is `s` with some whitespace removed from each end only. */
  predicate StrippedOf(r: string, s: string) {
    exists a: nat | a + |r| <= |s| ::
      && OccursAt(s, r, a)
      && (forall j :: 0 <= j < a ==> IsSpace(s[j]))
      && (forall j :: a + |r| <= j < |s| ==> IsSpace(s[j]))
  }

  /** `String.prototype.trim`. */
  function Trim(s: string): (r: string)
    ensures r == "" <==> forall j :: 0 <= j < |s| ==> IsSpace(s[j])
    ensures r != "" ==> !IsSpace(r[0]) && !IsSpace(r[|r| - 1])
    ensures forall c :: c in r ==> c in s
    ensures IsInfix(r, s)
  {
    var a := SpaceRun(s, 0);
    var b := TrimEndIndex(s, a, |s|);
    assert OccursAt(s, s[a..b], a);
    s[a..b]
  }

  /** What `trim()` removes is whitespace: the result sits in the text with
      only whitespace before and after it. */
  lemma TrimStripsSpace(s: string)
    ensures StrippedOf(Trim(s), s)
  {
    var a := SpaceRun(s, 0);
    var b := TrimEndIndex(s, a, |s|);
    assert OccursAt(s, Trim(s), a);
  }

  /** Trimming twice is trimming once. */
  lemma TrimIdempotent(s: string)
    ensures Trim(Trim(s)) == Trim(s)
  {
    if Trim(s) != "" {
      TrimUnchanged(Trim(s));
    }
  }

  /** A string with no surrounding whitespace is its own trim. */
  lemma TrimUnchanged(s: string)
    requires s != [] && !IsSpace(s[0]) && !IsSpace(s[|s| - 1])
    ensures Trim(s) == s
  {
  }
}
