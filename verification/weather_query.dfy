/** The chat handler's weather detector,
    `/weather\s+(?:in|at|for)?\s*([a-zA-Z\s]+)$/i`, and the city it extracts
    (the trimmed capture). Matching is case-insensitive on ASCII letters only;
    `\s` and `trim` share the ECMAScript whitespace set. */
module WeatherQuery {
  import opened Base
  import opened Strings

  const Keyword: string := "weather"

  predicate IsCityChar(c: char) {
    IsAsciiLetter(c) || IsSpace(c)
  }

  /** What may follow the keyword for the whole pattern to match up to the end
      of the input: at least one whitespace character for `\s+`, at least one
      more character for the capture, and nothing but letters and whitespace
      (the optional connective is itself made of letters). */
  predicate TailOk(t: string) {
    |t| >= 2 && IsSpace(t[0]) && forall i :: 0 <= i < |t| ==> IsCityChar(t[i])
  }

  /** The pattern matches starting at `p`. */
  predicate WeatherAt(q: string, p: nat) {
    p + |Keyword| <= |q| && ToLower(q[p..p + |Keyword|]) == Keyword && TailOk(q[p + |Keyword|..])
  }

  /** One of the optional words `in`, `at`, `for`, in any case. */
  predicate IsConnective(w: string) {
    ToLower(w) == "in" || ToLower(w) == "at" || ToLower(w) == "for"
  }

  /** The length of the connective the engine takes at `k` (0 for none).
      The alternatives are tried in the order `in`, `at`, `for`; they start
      with different letters, so at most one applies. */
  function ConnectiveAt(t: string, k: nat): (n: nat)
    requires k <= |t|
    ensures n == 0 || n == 2 || n == 3
    ensures n > 0 ==> k + n <= |t| && IsConnective(t[k..k + n])
  {
    if k + 2 <= |t| && IsConnective(t[k..k + 2]) then 2
    else if k + 3 <= |t| && IsConnective(t[k..k + 3]) then 3
    else 0
  }

  /** The capture group for a match whose text after the keyword is `t`.
      `\s+` first takes the whole leading whitespace run; the connective is
      taken when something is left after it, and `\s*` then takes the
      following run. When that leaves nothing for the capture, the engine
      gives back one whitespace character, so the capture is the last
      character. When the connective would reach the end, the engine drops
      it and the capture starts at the connective. */
  function Capture(t: string): (c: string)
    requires TailOk(t)
    ensures c != [] && EndsWith(t, c)
  {
    var k := SpaceRun(t, 0);
    if k == |t| then t[|t| - 1..]
    else
      var n := ConnectiveAt(t, k);
      if n > 0 && k + n < |t| then
        var g := k + n;
        var m := g + SpaceRun(t, g);
        if m < |t| then t[m..] else t[|t| - 1..]
      else t[k..]
  }

  /** The leftmost match position at or after `p`. */
  function FirstMatchFrom(q: string, p: nat): (r: Option<nat>)
    requires p <= |q|
    ensures r.Some? ==> p <= r.value < |q| && WeatherAt(q, r.value)
    ensures r.Some? ==> forall j :: p <= j < r.value ==> !WeatherAt(q, j)
    ensures r.None? ==> forall j :: p <= j < |q| ==> !WeatherAt(q, j)
    decreases |q| - p
  {
    if p == |q| then None
    else if WeatherAt(q, p) then Some(p)
    else FirstMatchFrom(q, p + 1)
  }

  /** `weatherMatch?.[1].trim()`: `None` when the pattern does not match. */
  function City(q: string): Option<string> {
    match FirstMatchFrom(q, 0)
    case None => None
    case Some(p) => Some(Trim(Capture(q[p + |Keyword|..])))
  }

  /** A query is a weather query exactly when the pattern matches somewhere. */
  lemma CityIff(q: string)
    ensures City(q).Some? <==> exists p :: 0 <= p < |q| && WeatherAt(q, p)
  {
  }

  /** Every character of a suffix of a valid tail is a letter or whitespace. */
  lemma SuffixChars(t: string, c: string)
    requires TailOk(t) && EndsWith(t, c)
    ensures forall i :: 0 <= i < |c| ==> IsCityChar(c[i])
  {
    forall i | 0 <= i < |c|
      ensures IsCityChar(c[i])
    {
      assert c[i] == t[|t| - |c| + i];
    }
  }

  /** Trimming keeps only characters of the trimmed string. */
  lemma TrimChars(s: string)
    requires forall i :: 0 <= i < |s| ==> IsCityChar(s[i])
    ensures var c := Trim(s); forall i :: 0 <= i < |c| ==> IsCityChar(c[i])
  {
    var c := Trim(s);
    forall i | 0 <= i < |c|
      ensures IsCityChar(c[i])
    {
      assert c[i] in c;
      var j :| 0 <= j < |s| && s[j] == c[i];
    }
  }

  /** A piece of a suffix of a piece of `q` is a piece of `q`. */
  lemma InfixOfSuffix(q: string, p: nat, cap: string, c: string)
    requires p <= |q| && EndsWith(q[p..], cap) && IsInfix(c, cap)
    ensures IsInfix(c, q)
  {
    var t := q[p..];
    var a: nat :| a <= |cap| && OccursAt(cap, c, a);
    var off := p + |t| - |cap| + a;
    assert cap == t[|t| - |cap|..];
    assert q[off..off + |c|] == cap[a..a + |c|];
    assert OccursAt(q, c, off);
  }

  /** Letters and whitespace, starting and ending with a letter unless
      empty. */
  predicate CityWord(c: string) {
    AllCityChars(c) && (c != [] ==> IsAsciiLetter(c[0]) && IsAsciiLetter(c[|c| - 1]))
  }

  /** The city is a piece of the query made of letters and inner whitespace;
      when it is not empty it starts and ends with a letter. */
  lemma CityShape(q: string)
    requires City(q).Some?
    ensures IsInfix(City(q).value, q) && CityWord(City(q).value)
  {
    var p := FirstMatchFrom(q, 0).value;
    var t := q[p + |Keyword|..];
    var cap := Capture(t);
    assert City(q).value == Trim(cap);
    TrimmedCaptureShape(t);
    InfixOfSuffix(q, p + |Keyword|, cap, Trim(cap));
  }

  /** The trimmed capture is a city word. */
  lemma TrimmedCaptureShape(t: string)
    requires TailOk(t)
    ensures CityWord(Trim(Capture(t)))
  {
    var cap := Capture(t);
    SuffixChars(t, cap);
    TrimChars(cap);
  }

  /** A query whose last character is neither a letter nor whitespace (a
      question mark, a digit) is never a weather query. */
  lemma TrailingSymbolNoCity(q: string)
    requires q != [] && !IsCityChar(q[|q| - 1])
    ensures City(q).None?
  {
  }

  /** The run of whitespace in `a + b` starting inside `a` stops at the end of
      `a` when `a` is all whitespace and `b` starts with a letter. */
  lemma SpaceRunStops(a: string, b: string, i: nat)
    requires i <= |a|
    requires forall j :: i <= j < |a| ==> IsSpace(a[j])
    requires b != [] && IsAsciiLetter(b[0])
    ensures SpaceRun(a + b, i) == |a| - i
  {
    var s := a + b;
    assert s[|a|] == b[0];
    assert forall j :: i <= j < |a| ==> s[j] == a[j];
  }

  predicate AllCityChars(s: string) {
    forall i :: 0 <= i < |s| ==> IsCityChar(s[i])
  }

  lemma AllCityCharsConcat(a: string, b: string)
    requires AllCityChars(a) && AllCityChars(b)
    ensures AllCityChars(a + b)
  {
    forall i | 0 <= i < |a + b|
      ensures IsCityChar((a + b)[i])
    {
      if i < |a| {
        assert (a + b)[i] == a[i];
      } else {
        assert (a + b)[i] == b[i - |a|];
      }
    }
  }

  /** The connective the engine takes at `k` is the word found there. */
  lemma ConnectiveAtWord(t: string, k: nat, o: string)
    requires k + |o| <= |t| && t[k..k + |o|] == o && IsConnective(o)
    ensures ConnectiveAt(t, k) == |o|
  {
    assert |ToLower(o)| == |o|;
    if |o| == 3 {
      assert ToLower(t[k..k + 2])[0] == LowerChar(o[0]) == ToLower(o)[0];
    }
  }

  /** The capture after a whitespace run, a connective, optional whitespace
      and a word starting with a letter is that word: the connective is
      consumed even when no whitespace separates it from the word, so
      "weather inverness" yields "verness". */
  lemma ConnectiveConsumed(s1: string, o: string, s2: string, w: string)
    requires s1 != [] && forall j :: 0 <= j < |s1| ==> IsSpace(s1[j])
    requires IsConnective(o) && forall j :: 0 <= j < |o| ==> IsAsciiLetter(o[j])
    requires forall j :: 0 <= j < |s2| ==> IsSpace(s2[j])
    requires w != [] && IsAsciiLetter(w[0]) && AllCityChars(w)
    ensures TailOk(s1 + o + s2 + w)
    ensures Capture(s1 + o + s2 + w) == w
  {
    var t := s1 + o + s2 + w;
    ConnectiveTailOk(s1, o, s2, w);
    assert t == s1 + (o + s2 + w);
    assert |ToLower(o)| == |o|;
    SpaceRunStops(s1, o + s2 + w, 0);
    var k := |s1|;
    assert t[k..k + |o|] == o;
    ConnectiveAtWord(t, k, o);
    var g := k + |o|;
    assert t == (s1 + o + s2) + w;
    SpaceRunStops(s1 + o + s2, w, g);
    CaptureAfterConnective(t, k, |o|, g + |s2|);
    assert t[g + |s2|..] == w;
  }

  /** The text of a connective match is acceptable after the keyword. */
  lemma ConnectiveTailOk(s1: string, o: string, s2: string, w: string)
    requires s1 != [] && forall j :: 0 <= j < |s1| ==> IsSpace(s1[j])
    requires IsConnective(o) && forall j :: 0 <= j < |o| ==> IsAsciiLetter(o[j])
    requires forall j :: 0 <= j < |s2| ==> IsSpace(s2[j])
    requires w != [] && AllCityChars(w)
    ensures TailOk(s1 + o + s2 + w)
  {
    var t := s1 + o + s2 + w;
    assert AllCityChars(s1) && AllCityChars(o) && AllCityChars(s2);
    AllCityCharsConcat(s1, o);
    AllCityCharsConcat(s1 + o, s2);
    AllCityCharsConcat(s1 + o + s2, w);
    assert |ToLower(o)| == |o|;
    assert t[0] == s1[0];
  }

  /** The capture when a connective is taken at `k` and the whitespace after
      it ends at `m`, before the end. */
  lemma CaptureAfterConnective(t: string, k: nat, n: nat, m: nat)
    requires TailOk(t) && k < |t| && SpaceRun(t, 0) == k
    requires n > 0 && k + n < |t| && ConnectiveAt(t, k) == n
    requires k + n + SpaceRun(t, k + n) == m && m < |t|
    ensures Capture(t) == t[m..]
  {
  }

  /** The capture after a whitespace run and a word that does not begin with
      a connective is that word. */
  lemma NoConnectiveWord(s1: string, w: string)
    requires s1 != [] && forall j :: 0 <= j < |s1| ==> IsSpace(s1[j])
    requires w != [] && IsAsciiLetter(w[0]) && AllCityChars(w)
    requires ConnectiveAt(w, 0) == 0
    ensures TailOk(s1 + w)
    ensures Capture(s1 + w) == w
  {
    var t := s1 + w;
    assert AllCityChars(s1);
    AllCityCharsConcat(s1, w);
    assert t[0] == s1[0];
    SpaceRunStops(s1, w, 0);
    var k := |s1|;
    assert t[k..] == w;
    ConnectiveAtSuffix(t, k);
    CaptureWithoutConnective(t, k);
  }

  /** The connective found at `k` depends only on the text from `k` on. */
  lemma ConnectiveAtSuffix(t: string, k: nat)
    requires k <= |t|
    ensures ConnectiveAt(t, k) == ConnectiveAt(t[k..], 0)
  {
    var w := t[k..];
    if k + 2 <= |t| {
      assert t[k..k + 2] == w[0..2];
    }
    if k + 3 <= |t| {
      assert t[k..k + 3] == w[0..3];
    }
  }

  /** The capture when no connective is taken after the leading whitespace
      run, which ends at `k`. */
  lemma CaptureWithoutConnective(t: string, k: nat)
    requires TailOk(t) && k < |t| && SpaceRun(t, 0) == k && ConnectiveAt(t, k) == 0
    ensures Capture(t) == t[k..]
  {
  }

  /** The keyword followed by a valid tail matches at the start. */
  lemma CityAfterKeyword(t: string)
    requires TailOk(t)
    ensures City(Keyword + t) == Some(Trim(Capture(t)))
  {
    var q := Keyword + t;
    assert q[0..|Keyword|] == Keyword;
    assert ToLower(Keyword) == Keyword;
    assert q[|Keyword|..] == t;
    assert WeatherAt(q, 0);
  }

  lemma CityIs(t: string, w: string)
    requires TailOk(t) && Capture(t) == w
    requires w != [] && IsAsciiLetter(w[0]) && IsAsciiLetter(w[|w| - 1])
    ensures City(Keyword + t) == Some(w)
  {
    TrimUnchanged(w);
    CityAfterKeyword(t);
  }

  /** "weather in Paris", "Weather AT Rome", "weather for New York": after
      the keyword, a connective and whitespace, the city is the rest of the
      query. */
  lemma IntendedCity(o: string, w: string)
    requires IsConnective(o) && forall j :: 0 <= j < |o| ==> IsAsciiLetter(o[j])
    requires w != [] && IsAsciiLetter(w[0]) && IsAsciiLetter(w[|w| - 1]) && AllCityChars(w)
    ensures City(Keyword + (" " + o + " " + w)) == Some(w)
  {
    var t := " " + o + " " + w;
    ConnectiveConsumed(" ", o, " ", w);
    assert Capture(t) == w;
    TrimUnchanged(w);
    assert Trim(Capture(t)) == w;
    CityAfterKeyword(t);
  }

  /** "weather inverness" asks for "verness", "weather atlanta" for "lanta":
      when no whitespace follows a leading `in`, `at` or `for`, the engine
      still takes it as the optional connective and the city loses it. */
  lemma ConnectiveEatsCityPrefix(o: string, w: string)
    requires IsConnective(o) && forall j :: 0 <= j < |o| ==> IsAsciiLetter(o[j])
    requires w != [] && IsAsciiLetter(w[0]) && IsAsciiLetter(w[|w| - 1]) && AllCityChars(w)
    ensures City(Keyword + (" " + o + w)) == Some(w)
  {
    var t := " " + o + w;
    var none: string := [];
    assert t == " " + o + none + w;
    ConnectiveConsumed(" ", o, none, w);
    assert TailOk(t) && Capture(t) == w;
    CityIs(t, w);
  }

  /** "weather Paris": without a leading connective the city is the rest of
      the query. */
  lemma PlainCity(w: string)
    requires w != [] && IsAsciiLetter(w[0]) && IsAsciiLetter(w[|w| - 1]) && AllCityChars(w)
    requires ConnectiveAt(w, 0) == 0
    ensures City(Keyword + (" " + w)) == Some(w)
  {
    NoConnectiveWord(" ", w);
    CityIs(" " + w, w);
  }

  /** "weather" followed by whitespace only is still a weather query, for
      the empty city: the capture is the last whitespace character. */
  lemma BlankCity(t: string)
    requires |t| >= 2 && forall j :: 0 <= j < |t| ==> IsSpace(t[j])
    ensures City(Keyword + t) == Some("")
  {
    assert TailOk(t);
    assert SpaceRun(t, 0) == |t|;
    assert Capture(t) == t[|t| - 1..];
    CityAfterKeyword(t);
  }
}
