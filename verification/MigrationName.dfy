/** The name of a migration file made from the name a user gives. */
module MigrationName {
  import opened Text

  predicate IsNameChar(c: char) {
    'a' <= c <= 'z' || '0' <= c <= '9' || c == '_'
  }

  function Underscored(s: string): (r: string)
    ensures |r| == |s|
  {
    if s == "" then "" else [if s[0] == ' ' || s[0] == '-' then '_' else s[0]] + Underscored(s[1..])
  }

  function NameChars(s: string): (r: string)
    ensures forall i :: 0 <= i < |r| ==> IsNameChar(r[i])
  {
    if s == "" then "" else (if IsNameChar(s[0]) then [s[0]] else "") + NameChars(s[1..])
  }

  /** The characters that can be part of the result. */
  function Kept(name: string): string {
    NameChars(Lower(Underscored(name)))
  }

  /** One pass of `replace(/__/g, '_')`. */
  function HalvePairs(s: string): (r: string)
    ensures |r| <= |s|
    ensures s != "" ==> r != "" && r[0] == s[0]
  {
    if |s| < 2 then s
    else if s[0] == '_' && s[1] == '_' then "_" + HalvePairs(s[2..])
    else [s[0]] + HalvePairs(s[1..])
  }

  predicate HasPair(s: string) {
    exists i :: 0 <= i < |s| - 1 && s[i] == '_' && s[i + 1] == '_'
  }

  function TrimFront(s: string): string {
    if s != "" && s[0] == '_' then TrimFront(s[1..]) else s
  }

  function TrimBack(s: string): string {
    if s != "" && s[|s| - 1] == '_' then TrimBack(s[..|s| - 1]) else s
  }

  /** The longest pieces without an underscore. */
  function Words(s: string): (ws: seq<string>)
    ensures s != "" && s[0] != '_' ==> ws != []
    ensures AllWords(ws) || exists i :: 0 <= i < |s| && !IsNameChar(s[i])
  {
    if s == "" then []
    else if s[0] == '_' then Words(s[1..])
    else if |s| == 1 || s[1] == '_' then [[s[0]]] + Words(s[1..])
    else var ws := Words(s[1..]); [[s[0]] + ws[0]] + ws[1..]
  }

  predicate IsWord(w: string) {
    w != "" && forall i :: 0 <= i < |w| ==> IsNameChar(w[i]) && w[i] != '_'
  }

  predicate AllWords(ws: seq<string>) {
    forall i :: 0 <= i < |ws| ==> IsWord(ws[i])
  }

  /** The words of the name, one underscore between each two. */
  function Sanitized(name: string): string {
    Join(Words(Kept(name)), "_")
  }

  method SanitizeName(name: string) returns (result: string)
    ensures result == Sanitized(name)
  {
    result := Kept(name);
    while Includes(result, "__")
      invariant Words(result) == Words(Kept(name))
      decreases |result|
    {
      PairIsIncluded(result);
      HalvingKeepsWords(result);
      HalvingShrinks(result);
      result := HalvePairs(result);
    }
    PairIsIncluded(result);
    TrimmedIsJoined(result);
    result := TrimBack(TrimFront(result));
  }

  lemma PairIsIncluded(s: string)
    ensures Includes(s, "__") <==> HasPair(s)
  {
    forall i ensures At(s, "__", i) <==> 0 <= i < |s| - 1 && s[i] == '_' && s[i + 1] == '_' {
      AtPair(s, "__", i);
    }
    hide At;
    if i :| 0 <= i <= |s| && At(s, "__", i) {
      assert s[i] == '_' && s[i + 1] == '_';
    }
    if HasPair(s) {
      var i :| 0 <= i < |s| - 1 && s[i] == '_' && s[i + 1] == '_';
      assert At(s, "__", i);
    }
  }

  lemma {:induction false} HalvingKeepsWords(s: string)
    ensures Words(HalvePairs(s)) == Words(s)
  {
    if |s| >= 2 {
      if s[0] == '_' && s[1] == '_' {
        HalvingKeepsWords(s[2..]);
        assert s[1..][1..] == s[2..];
        assert ("_" + HalvePairs(s[2..]))[1..] == HalvePairs(s[2..]);
      } else {
        HalvingKeepsWords(s[1..]);
        assert ([s[0]] + HalvePairs(s[1..]))[1..] == HalvePairs(s[1..]);
      }
    }
  }

  lemma {:induction false} HalvingShrinks(s: string)
    requires HasPair(s)
    ensures |HalvePairs(s)| < |s|
  {
    var i :| 0 <= i < |s| - 1 && s[i] == '_' && s[i + 1] == '_';
    if s[0] != '_' || s[1] != '_' {
      assert s[1..][i - 1] == '_' && s[1..][i] == '_';
      HalvingShrinks(s[1..]);
    }
  }

  lemma {:induction false} TrimBackAfter(a: string, b: string)
    requires TrimBack(b) != ""
    ensures TrimBack(a + b) == a + TrimBack(b)
  {
    if b[|b| - 1] == '_' {
      assert (a + b)[..|a + b| - 1] == a + b[..|b| - 1];
      TrimBackAfter(a, b[..|b| - 1]);
    }
  }

  lemma {:induction false} TrimBackKeepsFirst(s: string)
    requires s != "" && s[0] != '_'
    ensures TrimBack(s) != ""
  {
    if s[|s| - 1] == '_' {
      TrimBackKeepsFirst(s[..|s| - 1]);
    }
  }

  lemma JoinFirst(c: char, ws: seq<string>)
    requires ws != []
    ensures Join([[c] + ws[0]] + ws[1..], "_") == [c] + Join(ws, "_")
  {
    assert ([[c] + ws[0]] + ws[1..])[1..] == ws[1..];
    if |ws| > 1 {
      assert ([c] + ws[0]) + "_" + Join(ws[1..], "_") == [c] + (ws[0] + "_" + Join(ws[1..], "_"));
    }
  }

  /** A letter before more of its word. */
  lemma LetterBefore(c: char, s: string)
    requires c != '_' && s != "" && s[0] != '_' && TrimBack(s) == Join(Words(s), "_")
    ensures TrimBack([c] + s) == Join(Words([c] + s), "_")
  {
    TrimBackKeepsFirst(s);
    TrimBackAfter([c], s);
    JoinFirst(c, Words(s));
    WordsGrow(c, s);
  }

  lemma WordsGrow(c: char, s: string)
    requires c != '_' && s != "" && s[0] != '_'
    ensures Words([c] + s) == [[c] + Words(s)[0]] + Words(s)[1..]
  {
    assert ([c] + s)[1..] == s;
  }

  /** A letter, an underscore and another word. */
  lemma WordBefore(c: char, s: string)
    requires c != '_' && s != "" && s[0] != '_' && TrimBack(s) == Join(Words(s), "_")
    ensures TrimBack([c, '_'] + s) == Join(Words([c, '_'] + s), "_")
  {
    TrimBackKeepsFirst(s);
    TrimBackAfter([c, '_'], s);
    NewWord(c, s);
    JoinTwo([c], Words(s));
    assert [c] + "_" == [c, '_'];
  }

  lemma NewWord(c: char, s: string)
    requires c != '_'
    ensures Words([c, '_'] + s) == [[c]] + Words(s)
  {
    var t := [c, '_'] + s;
    assert t[1..][1..] == s;
  }

  lemma JoinTwo(w: string, ws: seq<string>)
    requires ws != []
    ensures Join([w] + ws, "_") == w + "_" + Join(ws, "_")
  {
    assert ([w] + ws)[1..] == ws;
  }

  lemma PairFree(s: string)
    requires s != "" && !HasPair(s)
    ensures !HasPair(s[1..])
  {
    assert forall i :: 0 <= i < |s| - 1 ==> s[1..][i] == s[i + 1];
  }

  lemma {:induction false} TrimBackIsJoined(s: string)
    requires s != "" && s[0] != '_' && !HasPair(s)
    ensures TrimBack(s) == Join(Words(s), "_")
  {
    hide TrimBack, Join, Words, HasPair;
    if |s| == 1 {
      OneLetter(s[0]);
      assert s == [s[0]];
    } else if s[1] != '_' {
      PairFree(s);
      TrimBackIsJoined(s[1..]);
      LetterBefore(s[0], s[1..]);
      assert s == [s[0]] + s[1..];
    } else if |s| == 2 {
      OneLetter(s[0]);
      assert s == [s[0], '_'];
    } else {
      PairFree(s);
      PairFree(s[1..]);
      assert s[1..][1..] == s[2..];
      NoPairAt(s, 1);
      TrimBackIsJoined(s[2..]);
      WordBefore(s[0], s[2..]);
      assert s == [s[0], '_'] + s[2..];
    }
  }

  lemma NoPairAt(s: string, i: nat)
    requires i < |s| - 1 && !HasPair(s) && s[i] == '_'
    ensures s[i + 1] != '_'
  {
  }

  lemma OneLetter(c: char)
    requires c != '_'
    ensures TrimBack([c]) == Join(Words([c]), "_")
    ensures TrimBack([c, '_']) == Join(Words([c, '_']), "_")
  {
    assert Words([c]) == [[c]];
    NewWord(c, "");
    assert [c, '_'] + "" == [c, '_'];
    assert [c, '_'][..1] == [c];
  }

  lemma {:induction false} TrimmedIsJoined(s: string)
    requires !HasPair(s)
    ensures TrimBack(TrimFront(s)) == Join(Words(s), "_")
  {
    if s != "" && s[0] == '_' {
      assert forall i :: 0 <= i < |s[1..]| ==> s[1..][i] == s[i + 1];
      TrimmedIsJoined(s[1..]);
    } else if s != "" {
      TrimBackIsJoined(s);
    }
  }

  // ---------------------------------------------------------------- what a name looks like

  /** Words of letters and digits, joined by single underscores. */
  ghost predicate IsName(s: string) {
    exists ws :: AllWords(ws) && s == Join(ws, "_")
  }

  lemma {:induction false} WordsAfterWord(w: string, s: string)
    requires IsWord(w) && (s == "" || s[0] == '_')
    ensures Words(w + s) == [w] + Words(s)
  {
    var t := w + s;
    assert t[1..] == w[1..] + s;
    if |w| == 1 {
      assert w[1..] + s == s;
      assert [t[0]] == w;
    } else {
      assert t[1] == w[1];
      WordsAfterWord(w[1..], s);
      assert [t[0]] + w[1..] == w;
    }
  }

  lemma {:induction false} WordsOfJoin(ws: seq<string>)
    requires AllWords(ws)
    ensures Words(Join(ws, "_")) == ws
  {
    if |ws| == 1 {
      WordsAfterWord(ws[0], "");
      assert ws[0] + "" == ws[0];
      assert [ws[0]] == ws;
    } else if ws != [] {
      var rest := Join(ws[1..], "_");
      WordsOfJoin(ws[1..]);
      WordsAfterWord(ws[0], "_" + rest);
      assert ("_" + rest)[1..] == rest;
      assert ws[0] + "_" + rest == ws[0] + ("_" + rest);
    }
  }

  lemma {:induction false} KeptOfNameChars(s: string)
    requires forall i :: 0 <= i < |s| ==> IsNameChar(s[i])
    ensures Kept(s) == s
  {
    if s != "" {
      KeptOfNameChars(s[1..]);
      var c := s[0];
      assert ([c] + Underscored(s[1..]))[1..] == Underscored(s[1..]);
      assert Lower(Underscored(s)) == [c] + Lower(Underscored(s[1..]));
      assert ([c] + Lower(Underscored(s[1..])))[1..] == Lower(Underscored(s[1..]));
    }
  }

  lemma {:induction false} JoinHasNameChars(ws: seq<string>)
    requires AllWords(ws)
    ensures forall i :: 0 <= i < |Join(ws, "_")| ==> IsNameChar(Join(ws, "_")[i])
  {
    if |ws| > 1 {
      JoinHasNameChars(ws[1..]);
    }
  }

  /** The result is a name, a name is its own result, and nothing is left exactly if no letter or
      digit was given. */
  lemma SanitizedIsName(name: string)
    ensures IsName(Sanitized(name))
    ensures IsName(name) ==> Sanitized(name) == name
    ensures Sanitized(Sanitized(name)) == Sanitized(name)
    ensures Sanitized(name) == "" <==> forall i :: 0 <= i < |Kept(name)| ==> Kept(name)[i] == '_'
  {
    assert AllWords(Words(Kept(name)));
    NameIsFixed(Sanitized(name));
    if IsName(name) {
      NameIsFixed(name);
    }
    NoWordsIff(Kept(name));
    var ws := Words(Kept(name));
    assert Sanitized(name) == "" <==> ws == [];
  }

  lemma NameIsFixed(name: string)
    requires IsName(name)
    ensures Sanitized(name) == name
  {
    var ws :| AllWords(ws) && name == Join(ws, "_");
    JoinHasNameChars(ws);
    KeptOfNameChars(name);
    WordsOfJoin(ws);
  }

  lemma {:induction false} NoWordsIff(s: string)
    ensures Words(s) == [] <==> forall i :: 0 <= i < |s| ==> s[i] == '_'
  {
    if s != "" && s[0] == '_' {
      NoWordsIff(s[1..]);
      assert forall i :: 1 <= i < |s| ==> s[i] == s[1..][i - 1];
    }
  }

  /** What becomes of one character: spaces and dashes part words, capitals are made small, and what is
      no letter, digit or underscore then is dropped. */
  function KeptOf(c: char): string {
    if c == ' ' || c == '-' || c == '_' then "_"
    else if 'A' <= c <= 'Z' then [c - 'A' + 'a']
    else if 'a' <= c <= 'z' || '0' <= c <= '9' then [c]
    else if c == '\U{212A}' then "k"
    else if c == '\U{0130}' then "i"
    else ""
  }

  function Mapped(name: string): string {
    if name == "" then "" else KeptOf(name[0]) + Mapped(name[1..])
  }

  /** The three passes over the name come to that for each of its characters, in order. */
  lemma {:induction false} KeptIsMapped(name: string)
    ensures Kept(name) == Mapped(name)
  {
    if name != "" {
      KeptIsMapped(name[1..]);
      var c := if name[0] == ' ' || name[0] == '-' then '_' else name[0];
      var rest := Underscored(name[1..]);
      assert Underscored(name) == [c] + rest && ([c] + rest)[1..] == rest;
      NameCharsAppend(LowerChar(c), Lower(rest));
      KeptChar(name[0]);
    }
  }

  lemma {:induction false} NameCharsAppend(a: string, b: string)
    ensures NameChars(a + b) == NameChars(a) + NameChars(b)
  {
    if a == "" {
      assert a + b == b;
    } else {
      assert (a + b)[1..] == a[1..] + b;
      NameCharsAppend(a[1..], b);
    }
  }

  lemma KeptChar(c: char)
    ensures NameChars(LowerChar(if c == ' ' || c == '-' then '_' else c)) == KeptOf(c)
  {
    if c == '\U{0130}' {
      NameCharsAppend("i", "\U{0307}");
      assert "i\U{0307}" == "i" + "\U{0307}";
      NameCharAlone('i');
      NameCharAlone('\U{0307}');
    } else {
      NameCharAlone(LowerChar(if c == ' ' || c == '-' then '_' else c)[0]);
    }
  }

  lemma NameCharAlone(c: char)
    ensures NameChars([c]) == if IsNameChar(c) then [c] else ""
  {
    assert [c][1..] == "";
  }
}
