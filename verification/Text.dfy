/** The string operations of JavaScript that the scripts rely on, over `seq<char>`:
    splitting on newlines, joining, trimming, searching for a pattern. */
module Text {

  const NL := '\n'

  /** The code points that `String.prototype.trim` removes (WhiteSpace and LineTerminator). */
  predicate IsSpace(c: char) {
    || '\t' <= c <= '\r'
    || c == ' ' || c == '\U{00A0}' || c == '\U{1680}' || c == '\U{2028}' || c == '\U{2029}'
    || c == '\U{202F}' || c == '\U{205F}' || c == '\U{3000}' || c == '\U{FEFF}'
    || '\U{2000}' <= c <= '\U{200A}'
  }

  predicate Blank(s: string) {
    forall i :: 0 <= i < |s| ==> IsSpace(s[i])
  }

  /** `s.trimStart()` */
  function TrimStart(s: string): (r: string)
    ensures r == "" || !IsSpace(r[0])
    ensures r == "" <==> Blank(s)
    ensures |r| <= |s| && r == s[|s| - |r|..]
  {
    if s == "" || !IsSpace(s[0]) then s
    else
      assert s == [s[0]] + s[1..];
      TrimStart(s[1..])
  }

  /** `s.trimEnd()` */
  function TrimEnd(s: string): (r: string)
    ensures r == "" || !IsSpace(r[|r| - 1])
    ensures r == "" <==> Blank(s)
    ensures |r| <= |s| && r == s[..|r|]
  {
    if s == "" || !IsSpace(s[|s| - 1]) then s
    else
      assert s == s[..|s| - 1] + [s[|s| - 1]];
      TrimEnd(s[..|s| - 1])
  }

  /** `s.trim()` */
  function Trim(s: string): (r: string)
    ensures Trimmed(r)
    ensures r == "" <==> Blank(s)
    ensures forall c :: c in r ==> c in s
  {
    hide TrimEnd, TrimStart, IsSpace;
    TrimEnd(TrimStart(s))
  }

  /** Neither end is white space: what `trim` leaves unchanged. */
  predicate Trimmed(s: string) {
    s == "" || (!IsSpace(s[0]) && !IsSpace(s[|s| - 1]))
  }

  lemma TrimOfTrimmed(s: string)
    requires Trimmed(s)
    ensures Trim(s) == s
  {
  }

  /** A trailing white-space character is trimmed away. */
  lemma TrimPadded(s: string, c: char)
    requires Trimmed(s) && s != "" && IsSpace(c)
    ensures Trim(s + [c]) == s
  {
    var t := s + [c];
    assert t[0] == s[0];
    assert TrimStart(t) == t;
    assert t[..|t| - 1] == s;
    assert TrimEnd(t) == TrimEnd(s);
  }

  /** `s.split('\n')`; the result is never empty. */
  function Lines(s: string): (ls: seq<string>)
    ensures |ls| >= 1
  {
    if s == "" then [""]
    else
      var rest := Lines(s[1..]);
      if s[0] == NL then [""] + rest else [[s[0]] + rest[0]] + rest[1..]
  }

  /** `ss.join(sep)` */
  function Join(ss: seq<string>, sep: string): string {
    if |ss| == 0 then ""
    else if |ss| == 1 then ss[0]
    else ss[0] + sep + Join(ss[1..], sep)
  }

  predicate NoNewline(s: string) {
    NL !in s
  }

  predicate AllNoNewline(ss: seq<string>) {
    forall i :: 0 <= i < |ss| ==> NoNewline(ss[i])
  }

  lemma {:induction false} LinesHaveNoNewline(s: string)
    ensures AllNoNewline(Lines(s))
  {
    if s != "" {
      LinesHaveNoNewline(s[1..]);
    }
  }

  /** Splitting and joining on newlines are inverse to each other, on all strings ... */
  lemma {:induction false} JoinOfLines(s: string)
    ensures Join(Lines(s), [NL]) == s
  {
    if s != "" {
      var rest := Lines(s[1..]);
      JoinOfLines(s[1..]);
      assert s == [s[0]] + s[1..];
      if s[0] == NL {
        assert Lines(s)[1..] == rest;
      } else if |rest| > 1 {
        assert Lines(s)[1..] == rest[1..];
      }
    }
  }

  /** ... and on all non-empty sequences of lines. */
  lemma {:induction false} LinesOfJoin(ls: seq<string>)
    requires |ls| >= 1 && AllNoNewline(ls)
    ensures Lines(Join(ls, [NL])) == ls
  {
    if |ls| == 1 {
      assert ls == [ls[0]];
      LinesOfOne(ls[0]);
    } else {
      LinesOfJoin(ls[1..]);
      LinesPrepend(ls[0], Join(ls[1..], [NL]));
      assert ls[0] + [NL] + Join(ls[1..], [NL]) == Join(ls, [NL]);
      assert ls == [ls[0]] + ls[1..];
    }
  }

  lemma {:induction false} LinesOfOne(s: string)
    requires NoNewline(s)
    ensures Lines(s) == [s]
  {
    if s != "" {
      LinesOfOne(s[1..]);
      assert [s[0]] + s[1..] == s;
    }
  }

  lemma {:induction false} LinesPrepend(a: string, b: string)
    requires NoNewline(a)
    ensures Lines(a + [NL] + b) == [a] + Lines(b)
  {
    var s := a + [NL] + b;
    if a == "" {
      assert s[1..] == b;
    } else {
      assert s[1..] == a[1..] + [NL] + b;
      LinesPrepend(a[1..], b);
      assert [a[0]] + a[1..] == a;
    }
  }

  /** `s.endsWith('\n')`, read off the last line. */
  lemma {:induction false} EndsWithNewline(s: string)
    ensures (s != "" && s[|s| - 1] == NL) <==> (|Lines(s)| > 1 && Lines(s)[|Lines(s)| - 1] == "")
  {
    if |s| > 1 {
      EndsWithNewline(s[1..]);
      assert s[1..][|s| - 2] == s[|s| - 1];
    } else if |s| == 1 {
      assert s[1..] == "";
    }
  }

  lemma {:induction false} JoinAppend(a: seq<string>, b: seq<string>, sep: string)
    requires a != [] && b != []
    ensures Join(a + b, sep) == Join(a, sep) + sep + Join(b, sep)
  {
    if |a| == 1 {
      assert (a + b)[1..] == b;
    } else {
      assert (a + b)[1..] == a[1..] + b;
      JoinAppend(a[1..], b, sep);
    }
  }

  /** `pat` occurs in `s` at index `i`. */
  predicate At(s: string, pat: string, i: int) {
    0 <= i && i + |pat| <= |s| && forall k :: 0 <= k < |pat| ==> s[i + k] == pat[k]
  }

  lemma AtPair(s: string, pat: string, i: int)
    requires |pat| == 2
    ensures At(s, pat, i) <==> 0 <= i < |s| - 1 && s[i] == pat[0] && s[i + 1] == pat[1]
  {
    if At(s, pat, i) {
      assert s[i + 0] == pat[0] && s[i + 1] == pat[1];
    }
  }

  /** `s.includes(pat)` */
  predicate Includes(s: string, pat: string) {
    exists i :: 0 <= i <= |s| && At(s, pat, i)
  }

  /** `s.startsWith(pat)` */
  predicate StartsWith(s: string, pat: string) {
    At(s, pat, 0)
  }

  /** `s.indexOf(pat)` for a pattern that occurs in `s`: the least index where it does. */
  function IndexOf(s: string, pat: string): (i: int)
    requires Includes(s, pat)
    ensures At(s, pat, i)
    ensures forall j :: 0 <= j < i ==> !At(s, pat, j)
  {
    IndexFrom(s, pat, 0)
  }

  function IndexFrom(s: string, pat: string, k: nat): (i: int)
    requires exists i :: k <= i && At(s, pat, i)
    ensures k <= i && At(s, pat, i)
    ensures forall j :: k <= j < i ==> !At(s, pat, j)
    decreases |s| - k
  {
    if At(s, pat, k) then k else
      assert forall i :: k <= i && At(s, pat, i) ==> k + 1 <= i;
      IndexFrom(s, pat, k + 1)
  }

  /** `toLowerCase`, as far as it can yield an ASCII character. */
  function LowerChar(c: char): string {
    if 'A' <= c <= 'Z' then [c - 'A' + 'a']
    else if c == '\U{212A}' then "k"
    else if c == '\U{0130}' then "i\U{0307}"
    else [c]
  }

  function Lower(s: string): string {
    if s == "" then "" else LowerChar(s[0]) + Lower(s[1..])
  }

  /** An ASCII digit. */
  predicate IsDigit(c: char) {
    '0' <= c <= '9'
  }
}
