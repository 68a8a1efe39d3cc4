/** The two text passes of the Cassandra migration tool: the checker's `removeComments`
    and the runner's `parseStatements`. They are written separately in the source, and so
    they are here; they are shown to read the same text. */
module MigrationText {
  import opened Text

  /** No comment marker: no two dashes in a row. */
  predicate NoDashes(s: string) {
    forall i :: 0 <= i < |s| - 1 ==> s[i] != '-' || s[i + 1] != '-'
  }

  /** The part of a line before its first `--`, as the runner cuts it. */
  function Cut(line: string): (r: string)
    ensures NoDashes(r)
    ensures r <= line
    ensures |r| < |line| ==> |r| + 1 < |line| && line[|r|] == line[|r| + 1] == '-'
  {
    assert forall i :: At(line, "--", i) <==> 0 <= i < |line| - 1 && line[i] == '-' && line[i + 1] == '-' by {
      forall i { AtPair(line, "--", i); }
    }
    hide At;
    if Includes(line, "--") then line[..IndexOf(line, "--")] else line
  }

  /** A line as the runner reads it: without comment and surrounding white space. */
  function CleanLine(line: string): (r: string)
    ensures r != "" && NoNewline(line) ==> IsClean(r)
  {
    hide Cut, TrimStart, TrimEnd, IsSpace;
    var cut := Cut(line);
    var t := TrimStart(cut);
    assert NoDashes(t);
    assert NoDashes(TrimEnd(t));
    Trim(cut)
  }

  /** What a statement is made of: a clean line is trimmed, non-empty, on one line and has no comment. */
  predicate IsClean(s: string) {
    s != "" && Trimmed(s) && NoNewline(s) && NoDashes(s)
  }

  predicate AllClean(ls: seq<string>) {
    forall i :: 0 <= i < |ls| ==> IsClean(ls[i])
  }

  /** The lines that remain of `ls`: cleaned, without the empty ones. */
  function Clean(ls: seq<string>): seq<string> {
    if ls == [] then [] else KeepLine(CleanLine(ls[0])) + Clean(ls[1..])
  }

  function KeepLine(line: string): seq<string> {
    if line == "" then [] else [line]
  }

  lemma AllCleanCons(line: string, rest: seq<string>)
    requires NoNewline(line) && AllClean(rest)
    ensures AllClean(KeepLine(CleanLine(line)) + rest)
  {
    hide CleanLine, IsClean;
  }

  lemma {:induction false} CleanIsClean(ls: seq<string>)
    requires AllNoNewline(ls)
    ensures AllClean(Clean(ls))
  {
    if ls != [] {
      hide CleanLine, IsClean, AllClean;
      CleanIsClean(ls[1..]);
      AllCleanCons(ls[0], Clean(ls[1..]));
    }
  }

  /** The loop's view: one more line. */
  lemma {:induction false} CleanSnoc(a: seq<string>, l: string)
    ensures Clean(a + [l]) == Clean(a) + KeepLine(CleanLine(l))
  {
    hide CleanLine;
    if a == [] {
      assert a + [l] == [l];
      assert Clean([l]) == KeepLine(CleanLine(l)) + Clean([]);
    } else {
      assert (a + [l])[1..] == a[1..] + [l];
      CleanSnoc(a[1..], l);
    }
  }

  lemma CleanLineOfClean(s: string)
    requires IsClean(s)
    ensures CleanLine(s) == s != ""
  {
    hide Cut;
    assert Cut(s) == s;
    TrimOfTrimmed(s);
  }

  lemma {:induction false} CleanOfClean(ls: seq<string>)
    requires AllClean(ls)
    ensures Clean(ls) == ls
  {
    hide CleanLine, IsClean;
    if ls != [] {
      CleanLineOfClean(ls[0]);
      CleanOfClean(ls[1..]);
    }
  }

  function CleanLines(content: string): seq<string> {
    Clean(Lines(content))
  }

  lemma CleanLinesAreClean(content: string)
    ensures AllClean(CleanLines(content))
  {
    LinesHaveNoNewline(content);
    CleanIsClean(Lines(content));
  }

  // ---------------------------------------------------------------- the checker's text

  /** `s.indexOf(pat)`, with -1 for a pattern that does not occur. */
  function FirstIndex(s: string, pat: string): (i: int)
    ensures i == -1 || At(s, pat, i)
    ensures forall j :: 0 <= j < (if i == -1 then |s| + 1 else i) ==> !At(s, pat, j)
  {
    SearchFrom(s, pat, 0)
  }

  function SearchFrom(s: string, pat: string, k: nat): (i: int)
    requires k <= |s| + 1
    ensures i == -1 || (k <= i && At(s, pat, i))
    ensures forall j :: k <= j < (if i == -1 then |s| + 1 else i) ==> !At(s, pat, j)
    decreases |s| + 1 - k
  {
    if k == |s| + 1 then -1 else if At(s, pat, k) then k else SearchFrom(s, pat, k + 1)
  }

  /** The first `map` of `removeComments`: each line up to its first `--`. */
  function CutAll(ls: seq<string>): (r: seq<string>)
    ensures |r| == |ls|
  {
    if ls == [] then [] else
      var idx := FirstIndex(ls[0], "--");
      [if idx != -1 then ls[0][..idx] else ls[0]] + CutAll(ls[1..])
  }

  /** The second `map`. */
  function TrimAll(ls: seq<string>): (r: seq<string>)
    ensures |r| == |ls|
  {
    if ls == [] then [] else [Trim(ls[0])] + TrimAll(ls[1..])
  }

  /** The `filter`. */
  function NonEmpty(ls: seq<string>): seq<string> {
    if ls == [] then [] else (if |ls[0]| > 0 then [ls[0]] else []) + NonEmpty(ls[1..])
  }

  /** `removeComments` */
  function RemoveComments(content: string): string {
    Join(NonEmpty(TrimAll(CutAll(Lines(content)))), [NL])
  }

  /** The checker cuts a line where the runner does. */
  lemma CutsAgree(line: string)
    ensures var idx := FirstIndex(line, "--"); Cut(line) == if idx != -1 then line[..idx] else line
  {
    var idx := FirstIndex(line, "--");
    assert idx != -1 ==> 0 <= idx <= |line| && At(line, "--", idx);
    assert Includes(line, "--") ==> 0 <= IndexOf(line, "--") <= |line| && At(line, "--", IndexOf(line, "--"));
    hide At;
    assert Includes(line, "--") <==> idx != -1;
  }

  lemma {:induction false} PassesAgree(ls: seq<string>)
    ensures NonEmpty(TrimAll(CutAll(ls))) == Clean(ls)
  {
    if ls != [] {
      hide Cut, Trim, FirstIndex;
      PassesAgree(ls[1..]);
      CutsAgree(ls[0]);
      var idx := FirstIndex(ls[0], "--");
      var cut := if idx != -1 then ls[0][..idx] else ls[0];
      assert CutAll(ls)[1..] == CutAll(ls[1..]);
      assert TrimAll(CutAll(ls)) == [Trim(cut)] + TrimAll(CutAll(ls[1..]));
      assert TrimAll(CutAll(ls))[1..] == TrimAll(CutAll(ls[1..]));
    }
  }

  /** What the checker's text is, in terms of the runner's lines. */
  lemma CheckerText(content: string)
    ensures RemoveComments(content) == Join(CleanLines(content), [NL])
  {
    PassesAgree(Lines(content));
  }

  // ---------------------------------------------------------------- the runner's statements

  predicate EndsStatement(s: string) {
    s != "" && s[|s| - 1] == ';'
  }

  /** How many of the leading lines make up the first statement: up to and including the
      first that ends in a semicolon, or all of them. */
  function FirstStatement(ls: seq<string>): (n: nat)
    ensures n <= |ls| && (ls != [] ==> n > 0)
    ensures forall i :: 0 <= i < n - 1 ==> !EndsStatement(ls[i])
    ensures n < |ls| ==> n > 0 && EndsStatement(ls[n - 1])
  {
    if ls == [] then 0
    else if EndsStatement(ls[0]) then 1
    else 1 + FirstStatement(ls[1..])
  }

  /** Clean lines gathered into statements, the lines of one joined by spaces. */
  function Group(ls: seq<string>): seq<string>
    decreases |ls|
  {
    if ls == [] then [] else
      var n := FirstStatement(ls);
      [Join(ls[..n], " ")] + Group(ls[n..])
  }

  function Statements(content: string): seq<string> {
    Group(CleanLines(content))
  }

  lemma {:induction false} FirstStatementAppend(a: seq<string>, b: seq<string>)
    requires a != [] && EndsStatement(a[|a| - 1])
    ensures FirstStatement(a + b) == FirstStatement(a)
  {
    if !EndsStatement(a[0]) {
      assert (a + b)[1..] == a[1..] + b;
      FirstStatementAppend(a[1..], b);
    }
  }

  lemma {:induction false} FirstStatementOpen(a: seq<string>, l: string)
    requires forall i :: 0 <= i < |a| ==> !EndsStatement(a[i])
    ensures FirstStatement(a + [l]) == |a| + 1
  {
    if a != [] {
      assert (a + [l])[1..] == a[1..] + [l];
      FirstStatementOpen(a[1..], l);
    }
  }

  lemma CutAppend(a: seq<string>, b: seq<string>, n: nat)
    requires n <= |a|
    ensures (a + b)[..n] == a[..n] && (a + b)[n..] == a[n..] + b
  {
  }

  lemma ConsAppend(x: string, s: seq<string>, t: seq<string>)
    ensures [x] + s + t == [x] + (s + t)
  {
  }

  /** A prefix that ends with a semicolon is grouped on its own. */
  lemma {:induction false} GroupAppend(a: seq<string>, b: seq<string>)
    requires a != [] ==> EndsStatement(a[|a| - 1])
    ensures Group(a + b) == Group(a) + Group(b)
    decreases |a|
  {
    if a == [] {
      assert a + b == b;
    } else {
      FirstStatementAppend(a, b);
      var n := FirstStatement(a);
      CutAppend(a, b, n);
      GroupAppend(a[n..], b);
      ConsAppend(Join(a[..n], " "), Group(a[n..]), Group(b));
    }
  }

  /** No line of an unfinished statement ends with a semicolon. */
  predicate Unfinished(ls: seq<string>) {
    forall i :: 0 <= i < |ls| ==> !EndsStatement(ls[i])
  }

  /** The lines of an unfinished statement, with the one that may finish it, form one statement. */
  lemma GroupOpen(a: seq<string>, l: string)
    requires Unfinished(a)
    ensures Group(a + [l]) == [Join(a + [l], " ")]
  {
    FirstStatementOpen(a, l);
    assert (a + [l])[..|a| + 1] == a + [l];
    assert (a + [l])[|a| + 1..] == [];
  }

  /** What the loop holds after some lines: finished statements, and the text of an open one. */
  ghost predicate Progress(ls: seq<string>, closed: seq<string>, open: seq<string>, current: string, statements: seq<string>) {
    && closed + open == Clean(ls)
    && AllClean(open)
    && (closed != [] ==> EndsStatement(closed[|closed| - 1]))
    && Unfinished(open)
    && statements == Group(closed)
    && current == Pending(open)
  }

  function Pending(open: seq<string>): string {
    if open == [] then "" else Join(open, " ") + " "
  }

  lemma PendingSnoc(open: seq<string>, line: string)
    ensures Pending(open + [line]) == Pending(open) + line + " "
  {
    if open != [] {
      JoinAppend(open, [line], " ");
    } else {
      assert open + [line] == [line];
    }
  }

  lemma TrimPending(open: seq<string>)
    requires open != [] && AllClean(open)
    ensures Trim(Pending(open)) == Join(open, " ") != ""
  {
    JoinIsClean(open);
    TrimPadded(Join(open, " "), ' ');
  }

  /** A line ending in a semicolon closes the open statement. */
  lemma CloseStatement(closed: seq<string>, open: seq<string>, line: string)
    requires closed != [] ==> EndsStatement(closed[|closed| - 1])
    requires Unfinished(open) && EndsStatement(line)
    ensures Group(closed + (open + [line])) == Group(closed) + [Join(open + [line], " ")]
  {
    GroupAppend(closed, open + [line]);
    GroupOpen(open, line);
  }

  lemma ProgressStart()
    ensures Progress([], [], [], "", [])
  {
  }

  /** One turn of the loop, in its three cases. */
  lemma ProgressStep(ls: seq<string>, l: string, closed: seq<string>, open: seq<string>, current: string, statements: seq<string>)
    requires Progress(ls, closed, open, current, statements) && NoNewline(l)
    ensures var t := CleanLine(l);
            var next := current + t + " ";
            if t == "" then Progress(ls + [l], closed, open, current, statements)
            else if EndsStatement(t) then
              && Trim(next) != ""
              && Progress(ls + [l], closed + (open + [t]), [], "", statements + [Trim(next)])
            else Progress(ls + [l], closed, open + [t], next, statements)
  {
    hide CleanLine, Trim, Join, Group, Clean, IsClean, CleanLines;
    var t := CleanLine(l);
    CleanSnoc(ls, l);
    if t != "" {
      PendingSnoc(open, t);
      assert (closed + open) + [t] == closed + (open + [t]);
      if EndsStatement(t) {
        TrimPending(open + [t]);
        CloseStatement(closed, open, t);
        assert closed + (open + [t]) + [] == closed + (open + [t]);
      }
    }
  }

  lemma ProgressEnd(ls: seq<string>, closed: seq<string>, open: seq<string>, current: string, statements: seq<string>)
    requires Progress(ls, closed, open, current, statements)
    ensures Group(Clean(ls)) == if Trim(current) == "" then statements else statements + [Trim(current)]
  {
    hide CleanLine, Join, Clean, IsClean, Trim, Group;
    GroupAppend(closed, open);
    GroupOfOpen(open);
    if open != [] {
      TrimPending(open);
    } else {
      assert Group(closed) + [] == Group(closed);
    }
  }

  lemma GroupOfOpen(open: seq<string>)
    requires Unfinished(open)
    ensures Group(open) == if open == [] then [] else [Join(open, " ")]
  {
    if open != [] {
      assert open == open[..|open| - 1] + [open[|open| - 1]];
      GroupOpen(open[..|open| - 1], open[|open| - 1]);
    }
  }

  /** The loop of `parseStatements`: `current` accumulates lines, each followed by a space. */
  method ParseStatements(content: string) returns (statements: seq<string>)
    ensures statements == Statements(content)
  {
    hide Progress, CleanLine, Trim, Group, Clean, Lines, NoNewline, EndsStatement;
    statements := [];
    var current := "";
    var lines := Lines(content);
    LinesHaveNoNewline(content);
    ghost var closed, open: seq<string> := [], [];
    ProgressStart();
    assert lines[..0] == [];
    for i := 0 to |lines|
      invariant Progress(lines[..i], closed, open, current, statements)
    {
      ProgressStep(lines[..i], lines[i], closed, open, current, statements);
      assert lines[..i + 1] == lines[..i] + [lines[i]];
      var trimmed := CleanLine(lines[i]);
      if |trimmed| == 0 {
        continue;
      }
      current := current + trimmed + " ";
      open := open + [trimmed];
      if EndsStatement(trimmed) {
        var statement := Trim(current);
        if |statement| > 0 {
          statements := statements + [statement];
        }
        current := "";
        closed, open := closed + open, [];
      }
    }
    assert lines[..|lines|] == lines;
    ProgressEnd(lines, closed, open, current, statements);
    if |Trim(current)| > 0 {
      statements := statements + [Trim(current)];
    }
  }

  /** Joining clean lines by a space makes no comment marker and leaves the ends as they are. */
  lemma {:induction false} JoinIsClean(ls: seq<string>)
    requires ls != [] && AllClean(ls)
    ensures IsClean(Join(ls, " "))
    ensures Join(ls, " ")[0] == ls[0][0]
    ensures EndsStatement(Join(ls, " ")) <==> EndsStatement(ls[|ls| - 1])
  {
    if |ls| > 1 {
      JoinIsClean(ls[1..]);
      SpacedIsClean(ls[0], Join(ls[1..], " "));
    }
  }

  lemma SpacedIsClean(a: string, b: string)
    requires IsClean(a) && IsClean(b)
    ensures IsClean(a + " " + b) && (a + " " + b)[0] == a[0]
    ensures EndsStatement(a + " " + b) <==> EndsStatement(b)
  {
    var j := a + " " + b;
    assert forall i :: 0 <= i < |a| ==> j[i] == a[i];
    assert forall i :: |a| < i < |j| ==> j[i] == b[i - |a| - 1];
    assert j[|a|] == ' ';
  }

  /** Each statement is one clean line, and only the last can lack its semicolon. */
  lemma {:induction false} GroupIsClean(ls: seq<string>)
    requires AllClean(ls)
    ensures AllClean(Group(ls))
    ensures forall k :: 0 <= k < |Group(ls)| - 1 ==> EndsStatement(Group(ls)[k])
    ensures ls != [] ==> Group(ls) != []
    decreases |ls|
  {
    if ls != [] {
      var n := FirstStatement(ls);
      JoinIsClean(ls[..n]);
      GroupIsClean(ls[n..]);
    }
  }

  lemma StatementsAreClean(content: string)
    ensures AllClean(Statements(content))
    ensures forall k :: 0 <= k < |Statements(content)| - 1 ==> EndsStatement(Statements(content)[k])
  {
    CleanLinesAreClean(content);
    GroupIsClean(CleanLines(content));
  }

  lemma {:induction false} JoinOfGroup(ls: seq<string>)
    ensures Join(Group(ls), " ") == Join(ls, " ")
    decreases |ls|
  {
    if ls != [] {
      var n := FirstStatement(ls);
      JoinOfGroup(ls[n..]);
      if n < |ls| {
        JoinAppend(ls[..n], ls[n..], " ");
        assert ls[..n] + ls[n..] == ls;
        JoinAppend([Join(ls[..n], " ")], Group(ls[n..]), " ");
      } else {
        assert ls[..n] == ls;
        assert Group(ls) == [Join(ls, " ")];
      }
    }
  }

  /** `s.replace(/\n/g, ' ')` */
  function Spaced(s: string): (r: string)
    ensures |r| == |s|
    ensures forall i :: 0 <= i < |s| ==> r[i] == if s[i] == NL then ' ' else s[i]
  {
    seq(|s|, i requires 0 <= i < |s| => if s[i] == NL then ' ' else s[i])
  }

  lemma {:induction false} SpacedJoin(ls: seq<string>)
    requires AllNoNewline(ls)
    ensures Spaced(Join(ls, [NL])) == Join(ls, " ")
  {
    if |ls| > 1 {
      SpacedJoin(ls[1..]);
      var j := Join(ls[1..], [NL]);
      assert Spaced(ls[0] + [NL] + j) == ls[0] + " " + Spaced(j);
    }
  }

  /** The checker reads what the runner executes: the statements, in order and one after
      another, are the comment-free text with its newlines read as spaces. */
  lemma CheckerReadsWhatRuns(content: string)
    ensures Join(Statements(content), " ") == Spaced(RemoveComments(content))
  {
    CheckerText(content);
    CleanLinesAreClean(content);
    JoinOfGroup(CleanLines(content));
    SpacedJoin(CleanLines(content));
  }

  /** Parsing the statements written one per line gives the same statements. */
  lemma ParseRoundTrip(content: string)
    ensures Statements(Join(Statements(content), [NL])) == Statements(content)
  {
    var ss := Statements(content);
    StatementsAreClean(content);
    if ss == [] {
      assert CleanLine("") == "";
      assert Lines("") == [""];
      assert CleanLines("") == [];
    } else {
      LinesOfJoin(ss);
      CleanOfClean(ss);
      GroupOfStatements(ss);
    }
  }

  lemma {:induction false} GroupOfStatements(ss: seq<string>)
    requires forall k :: 0 <= k < |ss| - 1 ==> EndsStatement(ss[k])
    ensures Group(ss) == ss
  {
    if |ss| == 1 {
      assert ss[..1] == ss;
      assert FirstStatement(ss) == 1;
    } else if ss != [] {
      assert FirstStatement(ss) == 1;
      assert ss[..1] == [ss[0]];
      GroupOfStatements(ss[1..]);
    }
  }

  // ---------------------------------------------------------------- the forbidden patterns

  /** The words of each forbidden pattern, which stand for `\b`, the words with `\s+` between them,
      and `\b`, in any case. */
  const FORBIDDEN_PATTERNS: seq<seq<string>> := [
    ["CREATE", "INDEX"], ["CREATE", "CUSTOM", "INDEX"], ["CREATE", "MATERIALIZED", "VIEW"],
    ["DROP", "TABLE"], ["DROP", "KEYSPACE"], ["DROP", "TYPE"], ["DROP", "INDEX"],
    ["DROP", "MATERIALIZED", "VIEW"], ["DROP", "COLUMN"], ["TRUNCATE"]
  ]

  predicate IsWordChar(c: char) {
    'a' <= c <= 'z' || 'A' <= c <= 'Z' || IsDigit(c) || c == '_'
  }

  function Upper(c: char): char {
    if 'a' <= c <= 'z' then c - 'a' + 'A' else c
  }

  predicate WordAt(s: string, word: string, i: nat) {
    i + |word| <= |s| && forall k :: 0 <= k < |word| ==> Upper(s[i + k]) == word[k]
  }

  predicate SpaceAt(s: string, from: nat, to: nat) {
    from < to <= |s| && forall k :: from <= k < to ==> IsSpace(s[k])
  }

  /** The words match from `i` on. */
  predicate WordsAt(s: string, words: seq<string>, i: nat)
    decreases |words|, 0
  {
    words != [] && WordAt(s, words[0], i) &&
    var j := i + |words[0]|;
    if |words| == 1 then j == |s| || !IsWordChar(s[j])
    else RestAt(s, words[1..], j)
  }

  /** White space from `j` on, and then the words. */
  predicate RestAt(s: string, words: seq<string>, j: nat)
    decreases |words|, 1
  {
    exists k: nat :: k <= |s| && SpaceAt(s, j, k) && WordsAt(s, words, k)
  }

  predicate MatchesAt(s: string, words: seq<string>, i: nat) {
    i <= |s| && (i == 0 || !IsWordChar(s[i - 1])) && WordsAt(s, words, i)
  }

  /** `pattern.test(s)` */
  predicate Matches(s: string, words: seq<string>) {
    exists i: nat :: i <= |s| && MatchesAt(s, words, i)
  }

  predicate IsLetters(word: string) {
    word != "" && forall k :: 0 <= k < |word| ==> 'A' <= word[k] <= 'Z'
  }

  predicate Letters(words: seq<string>) {
    forall i :: 0 <= i < |words| ==> IsLetters(words[i])
  }

  lemma PatternsAreLetters(p: nat)
    requires p < |FORBIDDEN_PATTERNS|
    ensures FORBIDDEN_PATTERNS[p] != [] && Letters(FORBIDDEN_PATTERNS[p])
  {
    VerbsAreLetters();
    NounsAreLetters();
    hide IsLetters;
  }

  lemma VerbsAreLetters()
    ensures IsLetters("CREATE") && IsLetters("DROP") && IsLetters("TRUNCATE") && IsLetters("CUSTOM") && IsLetters("MATERIALIZED")
  {
  }

  lemma NounsAreLetters()
    ensures IsLetters("INDEX") && IsLetters("VIEW") && IsLetters("TABLE") && IsLetters("KEYSPACE") && IsLetters("TYPE")
    ensures IsLetters("COLUMN")
  {
  }

  // ---------------------------------------------------------------- what a pattern finds

  /** The word, each letter in upper or lower case. */
  predicate InAnyCase(t: string, word: string) {
    |t| == |word| && forall k :: 0 <= k < |t| ==> t[k] == word[k] || ('A' <= word[k] <= 'Z' && t[k] == word[k] - 'A' + 'a')
  }

  predicate WhiteSpace(t: string) {
    t != "" && forall k :: 0 <= k < |t| ==> IsSpace(t[k])
  }

  /** The words in any case, with white space between each two. */
  predicate IsWriting(parts: seq<string>, words: seq<string>) {
    && words != [] && |parts| == 2 * |words| - 1
    && (forall i :: 0 <= i < |words| ==> InAnyCase(parts[2 * i], words[i]))
    && (forall i :: 0 <= i < |words| - 1 ==> WhiteSpace(parts[2 * i + 1]))
  }

  /** Such words with no letter, digit or underscore right before or after them. */
  ghost predicate Found(s: string, words: seq<string>, before: string, parts: seq<string>, after: string) {
    && s == before + Join(parts, "") + after && IsWriting(parts, words)
    && (before == "" || !IsWordChar(before[|before| - 1]))
    && (after == "" || !IsWordChar(after[0]))
  }

  /** What a pattern finds is its words on their own, in any case, with white space between them. */
  lemma MatchesIff(s: string, words: seq<string>)
    requires words != [] && Letters(words)
    ensures Matches(s, words) <==> exists before, parts, after :: Found(s, words, before, parts, after)
  {
    if Matches(s, words) {
      var i: nat :| i <= |s| && MatchesAt(s, words, i);
      var parts, e := WritingAt(s, words, i);
      FoundBetween(s, words, i, parts, e);
    }
    if before, parts, after :| Found(s, words, before, parts, after) {
      FoundMatches(s, words, before, parts, after);
    }
  }

  lemma FoundBetween(s: string, words: seq<string>, i: nat, parts: seq<string>, e: nat)
    requires i <= e <= |s| && s[i..e] == Join(parts, "") && IsWriting(parts, words)
    requires (i == 0 || !IsWordChar(s[i - 1])) && (e == |s| || !IsWordChar(s[e]))
    ensures Found(s, words, s[..i], parts, s[e..])
  {
    hide IsWriting, Join, IsWordChar;
    assert s == s[..i] + s[i..e] + s[e..];
  }

  lemma FoundMatches(s: string, words: seq<string>, before: string, parts: seq<string>, after: string)
    requires Letters(words) && Found(s, words, before, parts, after)
    ensures Matches(s, words)
  {
    hide IsWriting, Join, IsWordChar, Letters;
    var i, t := |before|, Join(parts, "");
    assert s[i..i + |t|] == t;
    assert i > 0 ==> s[i - 1] == before[i - 1];
    assert i + |t| < |s| ==> s[i + |t|] == after[0];
    WordsOfWriting(s, words, i, parts);
    hide WordsAt;
    assert MatchesAt(s, words, i);
  }

  lemma AnyCaseIff(s: string, word: string, i: nat)
    requires IsLetters(word) && i + |word| <= |s|
    ensures WordAt(s, word, i) <==> InAnyCase(s[i..i + |word|], word)
  {
    var t := s[i..i + |word|];
    forall k | 0 <= k < |word|
      ensures Upper(s[i + k]) == word[k] <==> t[k] == word[k] || ('A' <= word[k] <= 'Z' && t[k] == word[k] - 'A' + 'a')
    {
      assert t[k] == s[i + k];
    }
  }

  lemma SpaceIff(s: string, from: nat, to: nat)
    requires from <= to <= |s|
    ensures SpaceAt(s, from, to) <==> WhiteSpace(s[from..to])
  {
    var t := s[from..to];
    assert forall k :: from <= k < to ==> s[k] == t[k - from];
  }

  lemma WritingOfOne(t: string, word: string)
    requires InAnyCase(t, word)
    ensures IsWriting([t], [word]) && Join([t], "") == t
  {
  }

  lemma WritingCons(t: string, space: string, rest: seq<string>, words: seq<string>)
    requires |words| > 1 && InAnyCase(t, words[0]) && WhiteSpace(space) && IsWriting(rest, words[1..])
    ensures IsWriting([t, space] + rest, words) && Join([t, space] + rest, "") == t + (space + Join(rest, ""))
  {
    var parts := [t, space] + rest;
    hide InAnyCase, WhiteSpace;
    forall i | 0 <= i < |words| ensures InAnyCase(parts[2 * i], words[i]) {
      if i > 0 {
        assert parts[2 * i] == rest[2 * (i - 1)] && words[i] == words[1..][i - 1];
      }
    }
    forall i | 0 <= i < |words| - 1 ensures WhiteSpace(parts[2 * i + 1]) {
      if i > 0 {
        assert parts[2 * i + 1] == rest[2 * (i - 1) + 1];
      }
    }
    JoinOfTwo(t, space, rest);
  }

  lemma JoinOfTwo(t: string, space: string, rest: seq<string>)
    requires rest != []
    ensures Join([t, space] + rest, "") == t + (space + Join(rest, ""))
  {
    assert ([t, space] + rest)[1..] == [space] + rest;
    assert ([space] + rest)[1..] == rest;
  }

  lemma {:induction false} WritingAt(s: string, words: seq<string>, i: nat) returns (parts: seq<string>, e: nat)
    requires Letters(words) && i <= |s| && WordsAt(s, words, i)
    ensures i <= e <= |s| && s[i..e] == Join(parts, "") && IsWriting(parts, words)
    ensures e == |s| || !IsWordChar(s[e])
    decreases |words|
  {
    var j := i + |words[0]|;
    var t := s[i..j];
    assert IsLetters(words[0]);
    AnyCaseIff(s, words[0], i);
    hide IsWriting, InAnyCase, WhiteSpace, IsWordChar, WordAt, Join;
    if |words| == 1 {
      parts, e := [t], j;
      hide WordsAt;
      assert words == [words[0]];
      WritingOfOne(t, words[0]);
    } else {
      var k := RestStart(s, words[1..], j);
      SpaceIff(s, j, k);
      hide WordsAt, Letters;
      var rest;
      rest, e := WritingAt(s, words[1..], k);
      parts := [t, s[j..k]] + rest;
      WritingCons(t, s[j..k], rest, words);
      ThreeParts(s, i, j, k, e);
    }
  }

  lemma RestStart(s: string, words: seq<string>, j: nat) returns (k: nat)
    requires RestAt(s, words, j)
    ensures j < k <= |s| && SpaceAt(s, j, k) && WordsAt(s, words, k)
  {
    hide WordsAt;
    k :| k <= |s| && SpaceAt(s, j, k) && WordsAt(s, words, k);
  }

  lemma ThreeParts(s: string, i: nat, j: nat, k: nat, e: nat)
    requires i <= j <= k <= e <= |s|
    ensures s[i..e] == s[i..j] + (s[j..k] + s[k..e])
  {
  }

  lemma {:induction false} WordsOfWriting(s: string, words: seq<string>, i: nat, parts: seq<string>)
    requires Letters(words) && IsWriting(parts, words)
    requires var e := i + |Join(parts, "")|;
             e <= |s| && s[i..e] == Join(parts, "") && (e == |s| || !IsWordChar(s[e]))
    ensures WordsAt(s, words, i)
    decreases |words|
  {
    hide IsWriting, IsWordChar, InAnyCase;
    WritingHead(parts, words);
    if |words| == 1 {
      assert s[i..i + |words[0]|] == parts[0];
      AnyCaseIff(s, words[0], i);
    } else {
      var t, space, rest := parts[0], parts[1], parts[2..];
      var j := i + |t|;
      var k := j + |space|;
      WritingTail(parts, words);
      JoinOfTwo(t, space, rest);
      hide Join, WhiteSpace, WordsAt, WordAt, SpaceAt;
      PartsOf(s, i, t, space, Join(rest, ""));
      AnyCaseIff(s, words[0], i);
      SpaceIff(s, j, k);
      WordsOfWriting(s, words[1..], k, rest);
      WordThenRest(s, words, i, k);
    }
  }

  lemma WritingHead(parts: seq<string>, words: seq<string>)
    requires IsWriting(parts, words)
    ensures words != [] && parts != [] && InAnyCase(parts[0], words[0]) && |parts[0]| == |words[0]|
    ensures if |words| == 1 then parts == [parts[0]] else |parts| > 2 && parts == [parts[0], parts[1]] + parts[2..]
  {
    assert InAnyCase(parts[2 * 0], words[0]);
  }

  lemma WordThenRest(s: string, words: seq<string>, i: nat, k: nat)
    requires |words| > 1 && k <= |s|
    requires WordAt(s, words[0], i) && SpaceAt(s, i + |words[0]|, k) && WordsAt(s, words[1..], k)
    ensures WordsAt(s, words, i)
  {
    hide WordAt, SpaceAt;
    assert RestAt(s, words[1..], i + |words[0]|);
  }

  lemma WritingTail(parts: seq<string>, words: seq<string>)
    requires IsWriting(parts, words) && |words| > 1
    ensures parts[2..] != [] && IsWriting(parts[2..], words[1..]) && InAnyCase(parts[0], words[0]) && WhiteSpace(parts[1])
  {
    hide InAnyCase, WhiteSpace;
    assert InAnyCase(parts[2 * 0], words[0]) && WhiteSpace(parts[2 * 0 + 1]);
    var rest := parts[2..];
    forall i | 0 <= i < |words| - 1 ensures InAnyCase(rest[2 * i], words[1..][i]) {
      assert rest[2 * i] == parts[2 * (i + 1)];
    }
    forall i | 0 <= i < |words| - 2 ensures WhiteSpace(rest[2 * i + 1]) {
      assert rest[2 * i + 1] == parts[2 * (i + 1) + 1];
    }
  }

  lemma PartsOf(s: string, i: nat, a: string, b: string, c: string)
    requires i + |a| + |b| + |c| <= |s| && s[i..i + |a| + |b| + |c|] == a + (b + c)
    ensures s[i..i + |a|] == a && s[i + |a|..i + |a| + |b|] == b && s[i + |a| + |b|..i + |a| + |b| + |c|] == c
  {
    var t := a + (b + c);
    assert t[..|a|] == a && t[|a|..|a| + |b|] == b && t[|a| + |b|..] == c;
    PartOfPart(s, i, i + |t|, 0, |a|);
    PartOfPart(s, i, i + |t|, |a|, |a| + |b|);
    PartOfPart(s, i, i + |t|, |a| + |b|, |t|);
  }

  lemma PartOfPart(s: string, i: nat, j: nat, from: nat, to: nat)
    requires from <= to && i + to <= j <= |s|
    ensures s[i..j][from..to] == s[i + from..i + to]
  {
    var t := s[i..j];
    assert forall k :: from <= k < to ==> t[k] == s[i + k];
    assert t[from..to] == s[i + from..i + to];
  }

  // ---------------------------------------------------------------- patterns and the two texts

  lemma WordAtSpaced(s: string, word: string, i: nat)
    requires IsLetters(word)
    ensures WordAt(Spaced(s), word, i) <==> WordAt(s, word, i)
  {
    var t := Spaced(s);
    if i + |word| <= |s| {
      forall k | 0 <= k < |word| ensures Upper(t[i + k]) == word[k] <==> Upper(s[i + k]) == word[k] {
        assert t[i + k] == if s[i + k] == NL then ' ' else s[i + k];
      }
    }
  }

  lemma SpaceAtSpaced(s: string, from: nat, to: nat)
    ensures SpaceAt(Spaced(s), from, to) <==> SpaceAt(s, from, to)
  {
    var t := Spaced(s);
    if from < to <= |s| {
      forall k | from <= k < to ensures IsSpace(t[k]) <==> IsSpace(s[k]) {
        assert t[k] == if s[k] == NL then ' ' else s[k];
      }
    }
  }

  lemma {:induction false} WordsAtSpaced(s: string, words: seq<string>, i: nat)
    requires Letters(words)
    ensures WordsAt(Spaced(s), words, i) <==> WordsAt(s, words, i)
    decreases |words|
  {
    if words != [] {
      WordAtSpaced(s, words[0], i);
      var t, j := Spaced(s), i + |words[0]|;
      hide WordAt, SpaceAt, Spaced;
      if |words| > 1 {
        forall k: nat | k <= |s|
          ensures SpaceAt(t, j, k) <==> SpaceAt(s, j, k)
          ensures WordsAt(t, words[1..], k) <==> WordsAt(s, words[1..], k)
        {
          SpaceAtSpaced(s, j, k);
          WordsAtSpaced(s, words[1..], k);
        }
      } else if WordAt(s, words[0], i) && j < |s| {
        assert IsWordChar(t[j]) <==> IsWordChar(s[j]);
      }
    }
  }

  /** A pattern of letters does not tell a newline from a space. */
  lemma MatchesSpaced(s: string, words: seq<string>)
    requires Letters(words)
    ensures Matches(Spaced(s), words) <==> Matches(s, words)
  {
    var t := Spaced(s);
    hide WordsAt;
    forall i: nat | i <= |s| ensures MatchesAt(t, words, i) <==> MatchesAt(s, words, i) {
      WordsAtSpaced(s, words, i);
      if i > 0 {
        assert t[i - 1] == if s[i - 1] == NL then ' ' else s[i - 1];
      }
    }
  }

  /** Two texts, of which the first ends with a semicolon, one after the other. */
  ghost predicate Follows(s: string, a: string, b: string) {
    EndsStatement(a) && s == a + " " + b
  }

  lemma CharsOf(s: string, a: string, b: string)
    requires Follows(s, a, b)
    ensures |s| == |a| + 1 + |b| && s[|a| - 1] == ';' && s[|a|] == ' '
    ensures forall k :: 0 <= k < |a| ==> s[k] == a[k]
    ensures forall k :: |a| < k < |s| ==> s[k] == b[k - |a| - 1]
  {
  }

  /** A word does not run over the semicolon. */
  lemma WordAtFirst(s: string, a: string, b: string, word: string, i: nat)
    requires Follows(s, a, b) && IsLetters(word) && i < |a|
    ensures WordAt(s, word, i) <==> WordAt(a, word, i)
    ensures WordAt(a, word, i) ==> i + |word| < |a|
  {
    CharsOf(s, a, b);
    hide Follows;
    var k := |a| - 1 - i;
    assert k < |word| && i + |word| <= |s| ==> Upper(s[i + k]) != word[k];
    assert k < |word| && i + |word| <= |a| ==> Upper(a[i + k]) != word[k];
  }

  lemma SpaceAtFirst(s: string, a: string, b: string, from: nat, to: nat)
    requires Follows(s, a, b) && from < |a|
    ensures SpaceAt(s, from, to) <==> SpaceAt(a, from, to)
    ensures SpaceAt(a, from, to) ==> to < |a|
  {
    CharsOf(s, a, b);
    hide Follows;
    assert from < to && |a| <= to <= |s| ==> !IsSpace(s[|a| - 1]);
    assert from < to && to == |a| ==> !IsSpace(a[|a| - 1]);
  }

  lemma {:induction false} WordsAtFirst(s: string, a: string, b: string, words: seq<string>, i: nat)
    requires Follows(s, a, b) && Letters(words) && i < |a|
    ensures WordsAt(s, words, i) <==> WordsAt(a, words, i)
    decreases |words|
  {
    if words != [] {
      WordAtFirst(s, a, b, words[0], i);
      CharsOf(s, a, b);
      var j := i + |words[0]|;
      hide WordAt, SpaceAt, Follows;
      if |words| > 1 && j < |a| {
        forall k: nat | k <= |s|
          ensures SpaceAt(s, j, k) <==> SpaceAt(a, j, k)
          ensures SpaceAt(a, j, k) ==> k < |a|
          ensures k < |a| ==> (WordsAt(s, words[1..], k) <==> WordsAt(a, words[1..], k))
        {
          SpaceAtFirst(s, a, b, j, k);
          if k < |a| {
            WordsAtFirst(s, a, b, words[1..], k);
          }
        }
      }
    }
  }

  lemma WordAtSecond(s: string, a: string, b: string, word: string, i: nat)
    requires Follows(s, a, b) && IsLetters(word) && |a| <= i
    ensures if i == |a| then !WordAt(s, word, i) else WordAt(s, word, i) <==> WordAt(b, word, i - |a| - 1)
  {
    CharsOf(s, a, b);
    if i == |a| {
      assert i + |word| <= |s| ==> Upper(s[i + 0]) != word[0];
    } else {
      var at := i - |a| - 1;
      if i + |word| <= |s| {
        forall k | 0 <= k < |word| ensures Upper(s[i + k]) == word[k] <==> Upper(b[at + k]) == word[k] {
          assert s[i + k] == b[i + k - |a| - 1];
        }
      }
    }
  }

  lemma SpaceAtSecond(s: string, a: string, b: string, from: nat, to: nat)
    requires Follows(s, a, b) && |a| < from && |a| < to
    ensures SpaceAt(s, from, to) <==> SpaceAt(b, from - |a| - 1, to - |a| - 1)
  {
    CharsOf(s, a, b);
    hide Follows;
    var d := |a| + 1;
    if from < to <= |s| {
      assert forall m :: from - d <= m < to - d ==> b[m] == s[m + d];
    }
  }

  lemma {:induction false} WordsAtSecond(s: string, a: string, b: string, words: seq<string>, i: nat)
    requires Follows(s, a, b) && Letters(words) && |a| < i
    ensures WordsAt(s, words, i) <==> WordsAt(b, words, i - |a| - 1)
    decreases |words|
  {
    if words != [] {
      WordAtSecond(s, a, b, words[0], i);
      CharsOf(s, a, b);
      var d := |a| + 1;
      var j := i + |words[0]|;
      hide WordAt, SpaceAt, Follows;
      if |words| > 1 {
        forall k: nat | d <= k <= |s|
          ensures SpaceAt(s, j, k) <==> SpaceAt(b, j - d, k - d)
          ensures WordsAt(s, words[1..], k) <==> WordsAt(b, words[1..], k - d)
        {
          WordsAtSecond(s, a, b, words[1..], k);
          SpaceAtSecond(s, a, b, j, k);
        }
        SecondWitness(s, b, words[1..], j, d);
      }
    }
  }

  /** The positions after a word, shifted. */
  lemma SecondWitness(s: string, b: string, words: seq<string>, j: nat, d: nat)
    requires d <= j && |s| == d + |b|
    requires forall k: nat :: d <= k <= |s| ==>
               (SpaceAt(s, j, k) <==> SpaceAt(b, j - d, k - d)) && (WordsAt(s, words, k) <==> WordsAt(b, words, k - d))
    ensures RestAt(s, words, j) <==> RestAt(b, words, j - d)
  {
    hide WordsAt;
    if k: nat :| k <= |s| && SpaceAt(s, j, k) && WordsAt(s, words, k) {
      assert d <= k && SpaceAt(b, j - d, k - d) && WordsAt(b, words, k - d);
    }
    if k: nat :| k <= |b| && SpaceAt(b, j - d, k) && WordsAt(b, words, k) {
      assert SpaceAt(s, j, k + d) <==> SpaceAt(b, j - d, k + d - d);
      assert WordsAt(s, words, k + d) <==> WordsAt(b, words, k + d - d);
    }
  }

  /** A match lies on one side of the semicolon or the other. */
  lemma MatchesEither(s: string, a: string, b: string, words: seq<string>)
    requires Follows(s, a, b) && Letters(words)
    ensures Matches(s, words) <==> Matches(a, words) || Matches(b, words)
  {
    CharsOf(s, a, b);
    forall i: nat
      ensures i < |a| ==> (MatchesAt(s, words, i) <==> MatchesAt(a, words, i))
      ensures i == |a| ==> !MatchesAt(s, words, i) && !MatchesAt(a, words, i)
      ensures |a| < i <= |s| ==> (MatchesAt(s, words, i) <==> MatchesAt(b, words, i - |a| - 1))
    {
      if i < |a| {
        WordsAtFirst(s, a, b, words, i);
      } else if i == |a| {
        if words != [] {
          WordAtSecond(s, a, b, words[0], i);
        }
      } else if i <= |s| {
        WordsAtSecond(s, a, b, words, i);
        assert i > |a| + 1 ==> s[i - 1] == b[i - 1 - |a| - 1];
      }
    }
    hide MatchesAt, Follows;
    EitherWitness(s, a, b, words);
  }

  lemma EitherWitness(s: string, a: string, b: string, words: seq<string>)
    requires |s| == |a| + 1 + |b|
    requires forall i: nat :: i < |a| ==> (MatchesAt(s, words, i) <==> MatchesAt(a, words, i))
    requires !MatchesAt(s, words, |a|) && !MatchesAt(a, words, |a|)
    requires forall i: nat :: |a| < i <= |s| ==> (MatchesAt(s, words, i) <==> MatchesAt(b, words, i - |a| - 1))
    ensures Matches(s, words) <==> Matches(a, words) || Matches(b, words)
  {
    hide MatchesAt;
    var d := |a| + 1;
    if i: nat :| i <= |s| && MatchesAt(s, words, i) {
      assert i < |a| ==> MatchesAt(a, words, i);
      assert i > |a| ==> MatchesAt(b, words, i - d);
    }
    if i: nat :| i <= |b| && MatchesAt(b, words, i) {
      assert MatchesAt(s, words, i + d) <==> MatchesAt(b, words, i + d - d);
    }
  }

  /** A pattern of letters is found in statements one after another exactly if it is found in one. */
  lemma {:induction false} MatchesJoined(ss: seq<string>, words: seq<string>)
    requires words != [] && Letters(words)
    requires forall k :: 0 <= k < |ss| - 1 ==> EndsStatement(ss[k])
    ensures Matches(Join(ss, " "), words) <==> exists k :: 0 <= k < |ss| && Matches(ss[k], words)
  {
    if ss == [] {
      assert IsLetters(words[0]);
    } else if |ss| > 1 {
      hide Matches, Letters;
      var rest := ss[1..];
      MatchesJoined(rest, words);
      MatchesEither(Join(ss, " "), ss[0], Join(rest, " "), words);
      assert forall k :: 1 <= k < |ss| ==> ss[k] == rest[k - 1];
      assert forall k :: 0 <= k < |rest| ==> rest[k] == ss[k + 1];
    }
  }

  /** A forbidden pattern is found in the checked text exactly when it is found in one of the
      statements that the runner executes. */
  lemma PatternSeesWhatRuns(content: string, p: nat)
    requires p < |FORBIDDEN_PATTERNS|
    ensures Matches(RemoveComments(content), FORBIDDEN_PATTERNS[p]) <==>
            exists k :: 0 <= k < |Statements(content)| && Matches(Statements(content)[k], FORBIDDEN_PATTERNS[p])
  {
    PatternsAreLetters(p);
    hide Matches, RemoveComments, Statements, FORBIDDEN_PATTERNS, Letters;
    var words := FORBIDDEN_PATTERNS[p];
    CheckerReadsWhatRuns(content);
    MatchesSpaced(RemoveComments(content), words);
    StatementsAreClean(content);
    MatchesJoined(Statements(content), words);
  }

  datatype Problem = Forbidden(pattern: nat) | EmptyFile

  /** `validateMigrationContent` */
  method ValidateMigrationContent(content: string) returns (errors: seq<Problem>)
    ensures forall k: nat :: Forbidden(k) in errors <==>
              && k < |FORBIDDEN_PATTERNS|
              && exists i :: 0 <= i < |Statements(content)| && Matches(Statements(content)[i], FORBIDDEN_PATTERNS[k])
    ensures EmptyFile in errors <==> Statements(content) == []
  {
    hide *;
    errors := [];
    var cleanContent := RemoveComments(content);
    for i := 0 to |FORBIDDEN_PATTERNS|
      invariant EmptyFile !in errors
      invariant forall k: nat :: Forbidden(k) in errors <==> k < i && Matches(cleanContent, FORBIDDEN_PATTERNS[k])
    {
      if Matches(cleanContent, FORBIDDEN_PATTERNS[i]) {
        errors := errors + [Forbidden(i)];
      }
    }
    forall k: nat | k < |FORBIDDEN_PATTERNS| {
      PatternSeesWhatRuns(content, k);
    }
    EmptyIffNoStatement(content);
    if |Trim(cleanContent)| == 0 {
      errors := errors + [EmptyFile];
    }
  }

  /** The checker reports a file as empty exactly when the runner finds nothing to execute in it. */
  lemma EmptyIffNoStatement(content: string)
    ensures Trim(RemoveComments(content)) == "" <==> Statements(content) == []
  {
    var ls := CleanLines(content);
    CheckerText(content);
    CleanLinesAreClean(content);
    GroupIsClean(ls);
    hide Trim, RemoveComments, CleanLines, IsClean;
    if ls != [] {
      FirstIsText(ls);
    }
  }

  /** Clean lines begin with text, joined or not. */
  lemma FirstIsText(ls: seq<string>)
    requires ls != [] && AllClean(ls)
    ensures Trim(Join(ls, [NL])) != ""
  {
    assert IsClean(ls[0]);
    assert Join(ls, [NL])[0] == ls[0][0];
  }
}
