/** The licence header normaliser: `stripLicenseHeader`, `addHeader` and the branch that
    `processFile` takes, over whole file contents. */
module License {
  import opened Text
  import opened Wrappers

  datatype Style = Block | Line(prefix: string)

  /** The styles that file extensions map to. */
  predicate Known(style: Style) {
    style == Block || style == Line("#") || style == Line("%%")
  }

  // ---------------------------------------------------------------- stripping, by lines

  predicate IsShebang(line: string) {
    StartsWith(line, "#!")
  }

  function ShebangCount(lines: seq<string>): nat {
    if lines != [] && IsShebang(lines[0]) then 1 else 0
  }

  /** The first line at or after `i` that is not blank. */
  function SkipBlank(lines: seq<string>, i: nat): (j: nat)
    requires i <= |lines|
    ensures i <= j <= |lines| && (j < |lines| ==> !Blank(lines[j]))
    ensures forall k :: i <= k < j ==> Blank(lines[k])
    decreases |lines| - i
  {
    hide Blank;
    if i < |lines| && Blank(lines[i]) then SkipBlank(lines, i + 1) else i
  }

  /** Whether a line belongs to the run of comment lines that starts a line-style header. */
  predicate IsComment(line: string, prefix: string) {
    StartsWith(TrimStart(line), prefix)
  }

  function SkipComments(lines: seq<string>, i: nat, prefix: string): (j: nat)
    requires i <= |lines|
    ensures i <= j <= |lines| && (j < |lines| ==> Blank(lines[j]) || !IsComment(lines[j], prefix))
    ensures forall k :: i <= k < j ==> !Blank(lines[k]) && IsComment(lines[k], prefix)
    decreases |lines| - i
  {
    hide Blank, IsComment;
    if i < |lines| && !Blank(lines[i]) && IsComment(lines[i], prefix) then SkipComments(lines, i + 1, prefix) else i
  }

  /** The first line at or after `i` that closes a block comment. */
  function FindClose(lines: seq<string>, i: nat): (j: nat)
    requires i <= |lines|
    ensures i <= j <= |lines| && (j < |lines| ==> Includes(lines[j], "*/"))
    ensures forall k :: i <= k < j ==> !Includes(lines[k], "*/")
    decreases |lines| - i
  {
    hide Includes;
    if i < |lines| && !Includes(lines[i], "*/") then FindClose(lines, i + 1) else i
  }

  /** Where the header that starts at line `start` ends, if one starts there. */
  function HeaderEnd(lines: seq<string>, start: nat, style: Style): (r: Option<nat>)
    requires start <= |lines|
    ensures r.Some? ==> start < |lines| && start <= r.value <= |lines|
  {
    if start == |lines| then None
    else match style
      case Block =>
        if !IsComment(lines[start], "/*") then None
        else var end := FindClose(lines, start); if end == |lines| then None else Some(end + 1)
      case Line(prefix) =>
        if !IsComment(lines[start], prefix) then None else Some(SkipComments(lines, start, prefix))
  }

  /** The index of the first line to keep after the header. */
  function KeptFrom(lines: seq<string>, style: Style): (r: Option<nat>)
    ensures r.Some? ==> ShebangCount(lines) <= r.value <= |lines|
  {
    var start := SkipBlank(lines, ShebangCount(lines));
    match HeaderEnd(lines, start, style)
    case None => None
    case Some(end) => Some(SkipBlank(lines, end))
  }

  predicate EndsWithNL(s: string) {
    s != "" && s[|s| - 1] == NL
  }

  /** `stripLicenseHeader`; `None` stands for `success: false`. */
  function Strip(content: string, style: Style): Option<string> {
    var lines := Lines(content);
    match KeptFrom(lines, style)
    case None => None
    case Some(after) =>
      var result := Join(lines[..ShebangCount(lines)] + lines[after..], [NL]);
      Some(if EndsWithNL(content) && !EndsWithNL(result) then result + [NL] else result)
  }

  /** The loops of `stripLicenseHeader`. */
  method StripLicenseHeader(content: string, style: Style) returns (stripped: string, success: bool)
    ensures success <==> Strip(content, style).Some?
    ensures stripped == if success then Strip(content, style).value else content
  {
    hide Blank, Join, Lines, EndsWithNL, HeaderEnd, IsShebang;
    var lines := Lines(content);
    var prefixEnd := 0;
    if IsShebang(lines[0]) {
      prefixEnd := 1;
    }
    var headerStart := NextNonBlank(lines, prefixEnd);
    if headerStart >= |lines| {
      return content, false;
    }
    var originalEnding := EndsWithNL(content);
    var headerEnd, found := EndOfHeader(lines, headerStart, style);
    if !found {
      return content, false;
    }
    var afterIdx := NextNonBlank(lines, headerEnd);
    stripped := Join(lines[..prefixEnd] + lines[afterIdx..], [NL]);
    if originalEnding && !EndsWithNL(stripped) {
      stripped := stripped + [NL];
    }
    success := true;
  }

  /** The two loops that look for the end of the header. */
  method EndOfHeader(lines: seq<string>, start: nat, style: Style) returns (end: nat, found: bool)
    requires start < |lines|
    ensures HeaderEnd(lines, start, style) == if found then Some(end) else None
  {
    hide Includes, IsComment, Blank;
    end, found := start, false;
    match style {
      case Block =>
        if !IsComment(lines[start], "/*") {
          return;
        }
        for i := start to |lines|
          invariant !found && FindClose(lines, start) == FindClose(lines, i)
        {
          if Includes(lines[i], "*/") {
            end, found := i + 1, true;
            return;
          }
        }
      case Line(prefix) =>
        if !IsComment(lines[start], prefix) {
          return;
        }
        found := true;
        while end < |lines|
          invariant start <= end <= |lines| && found
          invariant SkipComments(lines, start, prefix) == SkipComments(lines, end, prefix)
        {
          if Blank(lines[end]) {
            return;
          }
          if IsComment(lines[end], prefix) {
            end := end + 1;
            continue;
          }
          return;
        }
    }
  }

  /** The loop that steps over blank lines. */
  method NextNonBlank(lines: seq<string>, from: nat) returns (i: nat)
    requires from <= |lines|
    ensures i == SkipBlank(lines, from)
  {
    hide Blank;
    i := from;
    while i < |lines| && Blank(lines[i])
      invariant from <= i <= |lines|
      invariant SkipBlank(lines, from) == SkipBlank(lines, i)
    {
      i := i + 1;
    }
  }

  // ---------------------------------------------------------------- adding

  /** A licence text, line by line, as the templates hold it: no line ends a block comment. */
  predicate GoodText(texts: seq<string>) {
    texts != [] && forall i :: 0 <= i < |texts| ==> Plain(texts[i])
  }

  predicate Plain(text: string) {
    forall i :: 0 <= i < |text| ==> text[i] != '*' && text[i] != NL
  }

  function Comment(mark: string, text: string): string {
    if text == "" then mark else mark + " " + text
  }

  function Commented(mark: string, texts: seq<string>): (r: seq<string>)
    ensures |r| == |texts| && forall i :: 0 <= i < |r| ==> r[i] == Comment(mark, texts[i])
  {
    seq(|texts|, i requires 0 <= i < |texts| => Comment(mark, texts[i]))
  }

  /** The template of a style: the text as a comment. */
  function Header(style: Style, texts: seq<string>): seq<string> {
    match style
    case Block => ["/*"] + Commented(" *", texts) + [" */"]
    case Line(prefix) => Commented(prefix, texts)
  }

  /** `addHeader` */
  function AddHeader(content: string, style: Style, texts: seq<string>): string {
    var header := Join(Header(style, texts), [NL]);
    var lines := Lines(content);
    if IsShebang(lines[0]) then
      lines[0] + [NL, NL] + header + [NL, NL] + Join(lines[1..], [NL])
    else
      header + [NL, NL] + content
  }

  /** All that stripping depends on in a header: it is recognised from its first line, and it
      ends with its last. */
  ghost predicate GoodHeader(h: seq<string>, style: Style) {
    && h != [] && AllNoNewline(h)
    && !IsShebang(h[0])
    && (forall i :: 0 <= i < |h| ==> !Blank(h[i]))
    && match style
       case Block =>
         && IsComment(h[0], "/*")
         && (forall i :: 0 <= i < |h| - 1 ==> !Includes(h[i], "*/"))
         && Includes(h[|h| - 1], "*/")
       case Line(prefix) =>
         forall i :: 0 <= i < |h| ==> IsComment(h[i], prefix)
  }

  lemma HeaderIsGood(style: Style, texts: seq<string>)
    requires Known(style) && GoodText(texts)
    ensures GoodHeader(Header(style, texts), style)
  {
    hide Includes, IsComment, Blank;
    var h := Header(style, texts);
    match style
    case Block =>
      EdgeLines();
      forall i | 0 < i < |h| - 1 ensures NoNewline(h[i]) && !Blank(h[i]) && !Includes(h[i], "*/") {
        assert h[i] == Comment(" *", texts[i - 1]);
        StarLine(texts[i - 1]);
      }
    case Line(prefix) =>
      forall i | 0 <= i < |h| ensures NoNewline(h[i]) && !Blank(h[i]) && IsComment(h[i], prefix) && !IsShebang(h[i]) {
        PrefixLine(prefix, texts[i]);
      }
  }

  lemma EdgeLines()
    ensures IsComment("/*", "/*") && !IsShebang("/*") && !Blank("/*") && NoNewline("/*") && !Includes("/*", "*/")
    ensures Includes(" */", "*/") && !Blank(" */") && NoNewline(" */")
  {
    var first, last := "/*", " */";
    assert !IsSpace(first[0]) && TrimStart(first) == first;
    assert !IsSpace(last[1]);
    hide At;
    AtPair(first, "/*", 0);
    AtPair(first, "#!", 0);
    AtPair(last, "*/", 1);
    forall i { AtPair(first, "*/", i); }
  }

  lemma StarLine(text: string)
    requires Plain(text)
    ensures var l := Comment(" *", text); NoNewline(l) && !Blank(l) && !Includes(l, "*/")
  {
    hide At;
    var l := Comment(" *", text);
    assert l[1] == '*' && !IsSpace(l[1]);
    assert forall i :: 3 <= i < |l| ==> l[i] == text[i - 3];
    forall i { AtPair(l, "*/", i); }
  }

  lemma PrefixLine(prefix: string, text: string)
    requires Known(Line(prefix)) && Plain(text)
    ensures var l := Comment(prefix, text);
            NoNewline(l) && !Blank(l) && IsComment(l, prefix) && !IsShebang(l)
  {
    var l := Comment(prefix, text);
    PrefixChars(prefix, text);
    hide Comment, IsSpace, Plain;
    assert TrimStart(l) == l;
    AtPair(l, "#!", 0);
  }

  lemma PrefixChars(prefix: string, text: string)
    requires Known(Line(prefix)) && Plain(text)
    ensures var l := Comment(prefix, text);
            && l != "" && !IsSpace(l[0]) && NoNewline(l) && At(l, prefix, 0)
            && (|l| > 1 ==> l[0] != '#' || l[1] != '!')
  {
    var l := Comment(prefix, text);
    assert forall i :: 0 <= i < |prefix| ==> l[i] == prefix[i];
    assert text != "" ==> l[|prefix|] == ' ';
    assert forall i :: |prefix| < i < |l| ==> l[i] == text[i - |prefix| - 1];
  }

  // ---------------------------------------------------------------- both, line by line

  /** `AddHeader` on lines; `h` is the header. */
  function AddLines(lines: seq<string>, h: seq<string>): seq<string>
    requires lines != []
  {
    if IsShebang(lines[0]) then [lines[0], ""] + h + [""] + AfterFirst(lines)
    else h + [""] + lines
  }

  /** The lines that `split` yields for what follows the first line. */
  function AfterFirst(lines: seq<string>): (r: seq<string>)
    requires lines != []
    ensures r != []
  {
    if |lines| > 1 then lines[1..] else [""]
  }

  /** A header and what follows it, with the blank line between. */
  lemma JoinBelow(h: seq<string>, rest: seq<string>)
    requires h != [] && rest != []
    ensures Join(h + [""] + rest, [NL]) == Join(h, [NL]) + [NL, NL] + Join(rest, [NL])
  {
    JoinAppend(h, [""] + rest, [NL]);
    JoinAppend([""], rest, [NL]);
    assert h + ([""] + rest) == h + [""] + rest;
  }

  lemma AddHeaderJoined(content: string, style: Style, texts: seq<string>)
    requires Header(style, texts) != []
    ensures AddHeader(content, style, texts) == Join(AddLines(Lines(content), Header(style, texts)), [NL])
  {
    hide IsShebang, Header, Join, Lines;
    JoinOfLines(content);
    var lines, h := Lines(content), Header(style, texts);
    if IsShebang(lines[0]) {
      JoinBelowShebang(lines, h);
    } else {
      JoinBelow(h, lines);
    }
  }

  lemma JoinBelowShebang(lines: seq<string>, h: seq<string>)
    requires lines != [] && h != []
    ensures Join([lines[0], ""] + h + [""] + AfterFirst(lines), [NL]) ==
            lines[0] + [NL, NL] + Join(h, [NL]) + [NL, NL] + Join(lines[1..], [NL])
  {
    hide Join, AfterFirst;
    var first, rest := [lines[0], ""], AfterFirst(lines);
    JoinOfRest(lines);
    JoinBelow(h, rest);
    JoinAppend(first, h + [""] + rest, [NL]);
    RegroupLines(lines[0], Join(h, [NL]), Join(rest, [NL]));
    assert first + (h + [""] + rest) == first + h + [""] + rest;
  }

  lemma JoinOfRest(lines: seq<string>)
    requires lines != []
    ensures Join(AfterFirst(lines), [NL]) == Join(lines[1..], [NL])
    ensures Join([lines[0], ""], [NL]) == lines[0] + [NL] + ""
  {
    assert [lines[0], ""][1..] == [""];
  }

  lemma RegroupLines(x: string, y: string, z: string)
    ensures (x + [NL] + "") + [NL] + (y + [NL, NL] + z) == x + [NL, NL] + y + [NL, NL] + z
  {
    assert (x + [NL] + "") + [NL] == x + [NL, NL];
    assert x + [NL, NL] + (y + [NL, NL] + z) == x + [NL, NL] + y + [NL, NL] + z;
  }

  lemma AddHeaderLines(content: string, style: Style, texts: seq<string>)
    requires Known(style) && GoodText(texts)
    ensures Lines(AddHeader(content, style, texts)) == AddLines(Lines(content), Header(style, texts))
  {
    hide IsShebang, Header, GoodText, Lines, Join, AddHeader;
    HeaderIsGood(style, texts);
    AddHeaderJoined(content, style, texts);
    LinesHaveNoNewline(content);
    AddLinesNoNewline(Lines(content), Header(style, texts));
    LinesOfJoin(AddLines(Lines(content), Header(style, texts)));
  }

  lemma AddLinesNoNewline(lines: seq<string>, h: seq<string>)
    requires lines != [] && AllNoNewline(lines) && AllNoNewline(h)
    ensures AllNoNewline(AddLines(lines, h))
  {
    hide IsShebang;
  }

  /** The lines of what `Strip` returns. */
  function StripLines(lines: seq<string>, style: Style): Option<seq<string>>
    requires lines != []
  {
    match KeptFrom(lines, style)
    case None => None
    case Some(after) => Some(Finish(lines[..ShebangCount(lines)] + lines[after..], LastEmpty(lines)))
  }

  /** The content ends with a newline: its last line is empty, and not the only one. */
  predicate LastEmpty(lines: seq<string>) {
    |lines| > 1 && lines[|lines| - 1] == ""
  }

  /** The kept lines, with the newline at the end restored. */
  function Finish(kept: seq<string>, ending: bool): (r: seq<string>)
    ensures r != []
  {
    var lines := if kept == [] then [""] else kept;
    if ending && !LastEmpty(lines) then lines + [""] else lines
  }

  lemma StripIsStripLines(content: string, style: Style)
    ensures var r := Strip(content, style);
            StripLines(Lines(content), style) == if r.None? then None else Some(Lines(r.value))
  {
    hide KeptFrom, Lines, Join;
    var lines := Lines(content);
    match KeptFrom(lines, style)
    case None =>
    case Some(after) =>
      LinesHaveNoNewline(content);
      var kept := lines[..ShebangCount(lines)] + lines[after..];
      var result := Join(kept, [NL]);
      FinishJoined(kept);
      EndsWithNewline(content);
      EndsWithNewline(result);
  }

  lemma FinishJoined(kept: seq<string>)
    requires AllNoNewline(kept)
    ensures var result := Join(kept, [NL]);
            && Lines(result) == Finish(kept, false)
            && Lines(result + [NL]) == Finish(kept, false) + [""]
  {
    var lines := Finish(kept, false);
    LinesOfJoin(lines);
    LinesOfJoin(lines + [""]);
    JoinAppend(lines, [""], [NL]);
    assert Join(kept, [NL]) == Join(lines, [NL]);
    assert Join(lines + [""], [NL]) == Join(lines, [NL]) + [NL];
  }

  // ---------------------------------------------------------------- stripping what was added

  lemma SkipBlankIs(lines: seq<string>, i: nat, j: nat)
    requires i <= j <= |lines| && (forall k :: i <= k < j ==> Blank(lines[k]))
    requires j < |lines| ==> !Blank(lines[j])
    ensures SkipBlank(lines, i) == j
  {
    hide Blank;
  }

  /** Stripping finds the header where adding put it. */
  lemma HeaderIsFound(before: seq<string>, h: seq<string>, rest: seq<string>, style: Style)
    requires GoodHeader(h, style)
    ensures HeaderEnd(before + h + [""] + rest, |before|, style) == Some(|before| + |h|)
  {
    hide Blank, IsComment, Includes, IsShebang;
    var lines := before + h + [""] + rest;
    var start, end := |before|, |before| + |h|;
    assert forall i :: start <= i < end ==> lines[i] == h[i - start];
    assert lines[start] == h[0];
    assert lines[end - 1] == h[|h| - 1];
    match style
    case Block =>
      assert FindClose(lines, start) == end - 1;
    case Line(prefix) =>
      var stop := SkipComments(lines, start, prefix);
      BlankEmpty();
      assert lines[end] == "";
      assert stop == end;
  }

  lemma BlankEmpty()
    ensures Blank("")
  {
  }

  /** What is left of `lines` after a header is added and stripped again. */
  function Settle(lines: seq<string>): seq<string>
    requires lines != []
  {
    var c := ShebangCount(lines);
    var rest := if c == 1 then AfterFirst(lines) else lines;
    Finish(lines[..c] + rest[SkipBlank(rest, 0)..], rest[|rest| - 1] == "")
  }

  lemma StripOfAdd(lines: seq<string>, h: seq<string>, style: Style)
    requires lines != [] && GoodHeader(h, style)
    ensures StripLines(AddLines(lines, h), style) == Some(Settle(lines))
  {
    hide Blank, IsShebang, GoodHeader, Finish, SkipBlank, AfterFirst, StripLines;
    FirstOfHeader(h, style);
    if IsShebang(lines[0]) {
      var before := [lines[0], ""];
      StripBelowHeader(before, h, AfterFirst(lines), style, 1);
      assert before[..1] == lines[..1];
    } else {
      assert [] + h + [""] + lines == AddLines(lines, h);
      assert ([] + h + [""] + lines)[0] == h[0];
      StripBelowHeader([], h, lines, style, 0);
      assert lines[..0] == [];
    }
  }

  lemma PartsBelow(before: seq<string>, h: seq<string>, rest: seq<string>, c: nat, s: nat)
    requires c <= |before| && s <= |rest| && rest != []
    ensures var all := before + h + [""] + rest;
            && all[..c] == before[..c]
            && all[|before| + |h| + 1 + s..] == rest[s..]
            && all[|all| - 1] == rest[|rest| - 1]
  {
    var all := before + h + [""] + rest;
    assert all == (before + h + [""]) + rest;
  }

  lemma StripBelowHeader(before: seq<string>, h: seq<string>, rest: seq<string>, style: Style, c: nat)
    requires GoodHeader(h, style) && rest != []
    requires ShebangCount(before + h + [""] + rest) == c <= |before|
    requires forall i :: c <= i < |before| ==> before[i] == ""
    ensures StripLines(before + h + [""] + rest, style) ==
            Some(Finish(before[..c] + rest[SkipBlank(rest, 0)..], rest[|rest| - 1] == ""))
  {
    hide Blank, IsShebang, GoodHeader, Finish, SkipBlank, KeptFrom, ShebangCount;
    KeptBelowHeader(before, h, rest, style);
    PartsBelow(before, h, rest, c, SkipBlank(rest, 0));
  }

  lemma KeptBelowHeader(before: seq<string>, h: seq<string>, rest: seq<string>, style: Style)
    requires GoodHeader(h, style) && rest != []
    requires ShebangCount(before + h + [""] + rest) <= |before|
    requires forall i :: ShebangCount(before + h + [""] + rest) <= i < |before| ==> before[i] == ""
    ensures KeptFrom(before + h + [""] + rest, style) == Some(|before| + |h| + 1 + SkipBlank(rest, 0))
  {
    hide Blank, HeaderEnd, IsShebang, GoodHeader, ShebangCount, SkipBlank;
    var all := before + h + [""] + rest;
    var c, end, s := ShebangCount(all), |before| + |h|, SkipBlank(rest, 0);
    BlankEmpty();
    FirstOfHeader(h, style);
    HeaderIsFound(before, h, rest, style);
    assert all[|before|] == h[0];
    assert forall i :: c <= i < |before| ==> all[i] == before[i];
    SkipBlankIs(all, c, |before|);
    assert all[end] == "";
    assert forall k :: end < k < |all| ==> all[k] == rest[k - end - 1];
    SkipBlankIs(all, end, end + 1 + s);
  }

  lemma FirstOfHeader(h: seq<string>, style: Style)
    requires GoodHeader(h, style)
    ensures h != [] && !IsShebang(h[0]) && !Blank(h[0])
  {
  }

  // ---------------------------------------------------------------- the normal form

  /** `Strip`, then `AddHeader`: what `processFile` does to a file whose header is found. */
  function Normalize(content: string, style: Style, texts: seq<string>): Option<string> {
    match Strip(content, style)
    case None => None
    case Some(stripped) => Some(AddHeader(stripped, style, texts))
  }

  /** The lines of a stripped file: text first, or nothing but at most one newline. */
  predicate Headed(lines: seq<string>) {
    lines == [""] || lines == ["", ""] || (lines != [] && !Blank(lines[0]))
  }

  lemma StrippedIsHeaded(lines: seq<string>, style: Style)
    requires lines != []
    ensures StripLines(lines, style).Some? ==> Headed(StripLines(lines, style).value)
  {
    hide HeaderEnd, Blank, IsShebang;
    var after := KeptFrom(lines, style);
    if after.Some? {
      ShebangNotBlank(lines[0]);
      var kept := lines[..ShebangCount(lines)] + lines[after.value..];
      assert kept != [] ==> kept[0] == if ShebangCount(lines) == 1 then lines[0] else lines[after.value];
    }
  }

  lemma ShebangNotBlank(line: string)
    ensures IsShebang(line) ==> !Blank(line)
  {
    AtPair(line, "#!", 0);
  }

  /** A stripped file is not changed by adding and stripping twice instead of once, as far as
      the next adding can tell. */
  lemma SettleTwice(lines: seq<string>, h: seq<string>)
    requires Headed(lines)
    ensures AddLines(Settle(Settle(lines)), h) == AddLines(Settle(lines), h)
  {
    hide Blank, IsShebang, Settle;
    ShebangNotBlank(lines[0]);
    BlankEmpty();
    ShebangNotBlank("");
    if IsShebang(lines[0]) {
      SettleShebangTwice(lines, h);
    } else if Blank(lines[0]) {
      SettlePlain(lines);
      SettlePlain(["", ""]);
    } else {
      SettlePlain(lines);
    }
  }

  lemma SettleShebangTwice(lines: seq<string>, h: seq<string>)
    requires lines != [] && IsShebang(lines[0])
    ensures AddLines(Settle(Settle(lines)), h) == AddLines(Settle(lines), h)
  {
    hide Blank, IsShebang, Settle;
    var rest := AfterFirst(lines);
    var s := SkipBlank(rest, 0);
    BlankEmpty();
    SettleShebang(lines);
    var once := Settle(lines);
    SettleShebang(once);
    if s < |rest| {
      assert AfterFirst(once) == rest[s..];
      SkipBlankIs(rest[s..], 0, 0);
      assert Settle(once) == once;
    } else {
      SkipBlankIs([""], 0, 1);
    }
  }

  lemma SettlePlain(lines: seq<string>)
    requires lines != [] && !IsShebang(lines[0]) && !IsShebang("")
    ensures Blank(lines[0]) && Headed(lines) ==> Settle(lines) == ["", ""]
    ensures !Blank(lines[0]) ==> Settle(lines) == lines
  {
    hide Blank, IsShebang;
    if !Blank(lines[0]) {
      assert lines[0..] == lines;
      BlankEmpty();
      assert lines[..0] + lines == lines;
    } else if Headed(lines) {
      SkipBlankIs(lines, 0, |lines|);
    }
  }

  /** After a shebang line, settling drops the blank lines that follow it. */
  lemma SettleShebang(lines: seq<string>)
    requires lines != [] && IsShebang(lines[0])
    ensures var rest := AfterFirst(lines);
            var s := SkipBlank(rest, 0);
            Settle(lines) ==
              if s < |rest| then [lines[0]] + rest[s..]
              else if rest[|rest| - 1] == "" then [lines[0], ""]
              else [lines[0]]
  {
    hide Blank, IsShebang;
    BlankEmpty();
    ShebangNotBlank(lines[0]);
    var rest := AfterFirst(lines);
    var s := SkipBlank(rest, 0);
    assert lines[..1] == [lines[0]];
    if s < |rest| {
      assert rest[s..][|rest| - s - 1] == rest[|rest| - 1];
    }
  }

  /** Stripping what was added: the content as a whole. */
  lemma StripAddHeader(content: string, style: Style, texts: seq<string>)
    requires Known(style) && GoodText(texts)
    ensures var r := Strip(AddHeader(content, style, texts), style);
            r.Some? && Lines(r.value) == Settle(Lines(content))
  {
    hide Strip, AddHeader, Lines, Settle, StripLines, AddLines, GoodText, Header;
    HeaderIsGood(style, texts);
    AddHeaderLines(content, style, texts);
    StripOfAdd(Lines(content), Header(style, texts), style);
    StripIsStripLines(AddHeader(content, style, texts), style);
  }

  lemma SameLines(a: string, b: string)
    requires Lines(a) == Lines(b)
    ensures a == b
  {
    JoinOfLines(a);
    JoinOfLines(b);
  }

  /** Two contents that settle to the same lines but for adding are added to alike. */
  lemma SameAdded(a: string, b: string, style: Style, texts: seq<string>)
    requires Known(style) && GoodText(texts)
    requires AddLines(Lines(a), Header(style, texts)) == AddLines(Lines(b), Header(style, texts))
    ensures AddHeader(a, style, texts) == AddHeader(b, style, texts)
  {
    hide AddHeader, AddLines, Lines, Header;
    AddHeaderLines(a, style, texts);
    AddHeaderLines(b, style, texts);
    SameLines(AddHeader(a, style, texts), AddHeader(b, style, texts));
  }

  /** Normalisation is stable from the second application on, for every content that is
      stripped at all: all three header styles, with or without a shebang, body empty or not. */
  lemma NormalizeReachesFixpoint(content: string, style: Style, texts: seq<string>)
    requires Known(style) && GoodText(texts)
    requires Strip(content, style).Some?
    ensures var once := Normalize(content, style, texts);
            && once.Some?
            && var twice := Normalize(once.value, style, texts);
            && twice.Some?
            && Normalize(twice.value, style, texts) == twice
  {
    hide Strip, AddHeader, Lines, Settle, StripLines, AddLines, GoodText, Header;
    var s0 := Strip(content, style).value;
    StripIsStripLines(content, style);
    StrippedIsHeaded(Lines(content), style);
    FixpointFromHeaded(s0, style, texts);
  }

  lemma FixpointFromHeaded(s0: string, style: Style, texts: seq<string>)
    requires Known(style) && GoodText(texts) && Headed(Lines(s0))
    ensures var once := AddHeader(s0, style, texts);
            var twice := Normalize(once, style, texts);
            && twice.Some?
            && Normalize(twice.value, style, texts) == twice
  {
    hide Strip, AddHeader, Lines, Settle, StripLines, AddLines, GoodText, Header;
    StripAddHeader(s0, style, texts);
    var s1 := Strip(AddHeader(s0, style, texts), style).value;
    StripAddHeader(s1, style, texts);
    var s2 := Strip(AddHeader(s1, style, texts), style).value;
    SettleTwice(Lines(s0), Header(style, texts));
    SameAdded(s1, s2, style, texts);
  }

  /** The lines of stripped files that one adding leaves in normal form. */
  predicate Stable(lines: seq<string>)
    requires lines != []
  {
    if IsShebang(lines[0]) then |lines| == 1 || lines[1..] == [""] || !Blank(lines[1]) else lines != [""]
  }

  /** The contents that one normalisation brings to normal form: those with a shebang line at the
      top; those that are a header alone, if they end with a newline; and those with text below
      the header, unless it is a shebang line that is followed by blank lines and text, or by a
      blank line of white space. */
  predicate NormalAtOnce(content: string, style: Style)
    requires KeptFrom(Lines(content), style).Some?
  {
    var lines, after := Lines(content), KeptFrom(Lines(content), style).value;
    || IsShebang(lines[0])
    || if after == |lines| then EndsWithNL(content)
       else !IsShebang(lines[after]) || after == |lines| - 1 || lines[after + 1..] == [""] || !Blank(lines[after + 1])
  }

  /** Adding a second time makes the same lines exactly if they are stable. */
  lemma SettleOnceIff(lines: seq<string>, h: seq<string>)
    requires Headed(lines)
    ensures AddLines(Settle(lines), h) == AddLines(lines, h) <==> Stable(lines)
  {
    hide Blank, IsShebang, Settle;
    ShebangNotBlank(lines[0]);
    BlankEmpty();
    ShebangNotBlank("");
    if IsShebang(lines[0]) {
      SettleShebangOnceIff(lines, h);
    } else {
      SettlePlain(lines);
      if lines == [""] {
        assert |AddLines(Settle(lines), h)| == |AddLines(lines, h)| + 1;
      }
    }
  }

  lemma SettleShebangOnceIff(lines: seq<string>, h: seq<string>)
    requires lines != [] && IsShebang(lines[0])
    ensures AddLines(Settle(lines), h) == AddLines(lines, h) <==> Stable(lines)
  {
    hide Blank, IsShebang, Settle, AfterFirst;
    SettleShebang(lines);
    AddedBelowShebang(Settle(lines), lines, h);
    AfterFirstOnceIff(lines);
  }

  lemma AddedBelowShebang(a: seq<string>, b: seq<string>, h: seq<string>)
    requires a != [] && b != [] && a[0] == b[0] && IsShebang(a[0])
    ensures AddLines(a, h) == AddLines(b, h) <==> AfterFirst(a) == AfterFirst(b)
  {
    hide IsShebang, AfterFirst;
    var top := [a[0], ""] + h + [""];
    assert AddLines(a, h) == top + AfterFirst(a) && AddLines(b, h) == top + AfterFirst(b);
    assert (top + AfterFirst(a))[|top|..] == AfterFirst(a) && (top + AfterFirst(b))[|top|..] == AfterFirst(b);
  }

  lemma AfterFirstOnceIff(lines: seq<string>)
    requires lines != [] && IsShebang(lines[0])
    ensures AfterFirst(Settle(lines)) == AfterFirst(lines) <==> Stable(lines)
  {
    hide Blank, IsShebang, Settle;
    SettleShebang(lines);
    BlankEmpty();
    var rest := AfterFirst(lines);
    var s := SkipBlank(rest, 0);
    if !Blank(rest[0]) {
      SkipBlankIs(rest, 0, 0);
      assert [lines[0]] + rest[0..] == lines;
    } else if s < |rest| {
      assert AfterFirst(Settle(lines)) == rest[s..];
      assert |rest[s..]| < |rest|;
    } else {
      assert AfterFirst(Settle(lines)) == [""];
    }
  }

  /** Below a shebang line at the top, what is kept starts with text. */
  lemma StableBelowShebang(lines: seq<string>, style: Style)
    requires lines != [] && IsShebang(lines[0]) && StripLines(lines, style).Some?
    ensures Stable(StripLines(lines, style).value)
  {
    hide Blank, IsShebang, HeaderEnd;
    ShebangNotBlank(lines[0]);
    BlankEmpty();
    KeptIsText(lines, style);
    var after := KeptFrom(lines, style).value;
    var kept := lines[..1] + lines[after..];
    assert kept[0] == lines[0];
    assert after < |lines| ==> kept[1] == lines[after];
  }

  lemma TailFinished(lines: seq<string>, after: nat)
    requires after < |lines| && lines[after] != ""
    ensures Finish(lines[..0] + lines[after..], LastEmpty(lines)) == lines[after..]
  {
    assert lines[..0] + lines[after..] == lines[after..];
    assert lines[after..][|lines| - after - 1] == lines[|lines| - 1];
  }

  /** Without one, what is kept is the text below the header as it is. */
  lemma StrippedIsTail(lines: seq<string>, style: Style)
    requires lines != [] && !IsShebang(lines[0]) && StripLines(lines, style).Some?
    ensures var after := KeptFrom(lines, style).value;
            StripLines(lines, style).value ==
              if after < |lines| then lines[after..] else if LastEmpty(lines) then ["", ""] else [""]
  {
    BlankEmpty();
    KeptIsText(lines, style);
    hide Blank, IsShebang, KeptFrom;
    var after := KeptFrom(lines, style).value;
    if after < |lines| {
      TailFinished(lines, after);
    } else {
      assert lines[..0] + lines[after..] == [];
    }
  }

  /** What the stripped lines are stable for, read off the content. */
  lemma StableIsNormalAtOnce(content: string, style: Style)
    requires Strip(content, style).Some?
    ensures Stable(Lines(Strip(content, style).value)) <==> NormalAtOnce(content, style)
  {
    hide Blank, IsShebang, KeptFrom, Lines, Strip, Finish;
    StripIsStripLines(content, style);
    EndsWithNewline(content);
    var lines := Lines(content);
    ShebangNotBlank("");
    BlankEmpty();
    if IsShebang(lines[0]) {
      StableBelowShebang(lines, style);
    } else {
      StrippedIsTail(lines, style);
      KeptIsText(lines, style);
      var after := KeptFrom(lines, style).value;
      if after < |lines| {
        assert lines[after..][0] == lines[after] && lines[after..][1..] == lines[after + 1..];
      }
    }
  }

  lemma KeptIsText(lines: seq<string>, style: Style)
    requires KeptFrom(lines, style).Some?
    ensures var after := KeptFrom(lines, style).value; after < |lines| ==> !Blank(lines[after])
  {
    hide Blank, HeaderEnd;
  }

  /** One normalisation is enough for exactly these contents. */
  lemma NormalizeOnceIff(content: string, style: Style, texts: seq<string>)
    requires Known(style) && GoodText(texts)
    requires Strip(content, style).Some?
    ensures var once := Normalize(content, style, texts);
            Normalize(once.value, style, texts) == once <==> NormalAtOnce(content, style)
  {
    hide Strip, AddHeader, Lines, Settle, StripLines, AddLines, GoodText, Header, Headed, Stable, NormalAtOnce;
    var s0 := Strip(content, style).value;
    StripIsStripLines(content, style);
    StrippedIsHeaded(Lines(content), style);
    StripAddHeader(s0, style, texts);
    var s1 := Strip(AddHeader(s0, style, texts), style).value;
    SettleOnceIff(Lines(s0), Header(style, texts));
    AddHeaderLines(s0, style, texts);
    AddHeaderLines(s1, style, texts);
    if AddLines(Lines(s0), Header(style, texts)) == AddLines(Lines(s1), Header(style, texts)) {
      SameAdded(s0, s1, style, texts);
    }
    StableIsNormalAtOnce(content, style);
  }

  /** The contents that a header can be put on and taken off without a trace. */
  predicate RoundTrips(body: string) {
    var lines := Lines(body);
    if IsShebang(lines[0]) then |lines| > 1 && (lines[1..] == [""] || !Blank(lines[1]))
    else body == [NL] || !Blank(lines[0])
  }

  /** Strip undoes add exactly on these contents. */
  lemma StripUndoesAdd(body: string, style: Style, texts: seq<string>)
    requires Known(style) && GoodText(texts)
    ensures Strip(AddHeader(body, style, texts), style) == Some(body) <==> RoundTrips(body)
  {
    hide Strip, AddHeader, Settle, GoodText, Header, Blank, IsShebang;
    var lines := Lines(body);
    StripAddHeader(body, style, texts);
    var back := Strip(AddHeader(body, style, texts), style).value;
    if Settle(lines) == lines { SameLines(back, body); }
    BlankEmpty();
    ShebangNotBlank("");
    if IsShebang(lines[0]) {
      SettleIsShebang(lines);
    } else {
      SettleIsPlain(lines);
      NewlineLines(body);
    }
  }

  /** A header put on these contents is not moved by a normalisation: those that round-trip, and a
      shebang line alone without a newline. */
  predicate NormalBelowHeader(body: string) {
    RoundTrips(body) || (IsShebang(Lines(body)[0]) && |Lines(body)| == 1)
  }

  /** A file that had no header is in normal form once it has one for exactly these contents. */
  lemma AddOnceIff(body: string, style: Style, texts: seq<string>)
    requires Known(style) && GoodText(texts)
    ensures var once := AddHeader(body, style, texts);
            Normalize(once, style, texts) == Some(once) <==> NormalBelowHeader(body)
  {
    hide Strip, AddHeader, Settle, GoodText, Header, Blank, IsShebang, Lines, AddLines;
    var lines, h := Lines(body), Header(style, texts);
    StripAddHeader(body, style, texts);
    var back := Strip(AddHeader(body, style, texts), style).value;
    AddHeaderLines(body, style, texts);
    AddHeaderLines(back, style, texts);
    if AddLines(Lines(back), h) == AddLines(lines, h) {
      SameAdded(back, body, style, texts);
    }
    HeaderIsGood(style, texts);
    FirstOfHeader(h, style);
    ShebangNotBlank("");
    BlankEmpty();
    if IsShebang(lines[0]) {
      SettleShebangOnceIff(lines, h);
    } else {
      SettleIsPlain(lines);
      AddedPlain(Settle(lines), lines, h);
      NewlineLines(body);
    }
  }

  lemma NewlineLines(body: string)
    ensures Lines(body) == ["", ""] <==> body == [NL]
  {
    assert Lines([NL][1..]) == [""];
    assert Lines([NL]) == ["", ""];
    if Lines(body) == ["", ""] { SameLines(body, [NL]); }
  }

  lemma AddedPlain(a: seq<string>, b: seq<string>, h: seq<string>)
    requires a != [] && b != [] && !IsShebang(b[0]) && h != [] && !IsShebang(h[0])
    ensures AddLines(a, h) == AddLines(b, h) <==> a == b
  {
    hide IsShebang, AfterFirst;
    var top := h + [""];
    assert AddLines(b, h) == top + b && AddLines(b, h)[0] == h[0];
    if IsShebang(a[0]) {
      assert AddLines(a, h)[0] == a[0];
    } else {
      assert AddLines(a, h) == top + a;
      assert (top + a)[|top|..] == a && (top + b)[|top|..] == b;
    }
  }

  lemma SettleIsShebang(lines: seq<string>)
    requires lines != [] && IsShebang(lines[0])
    ensures Settle(lines) == lines <==> |lines| > 1 && (lines[1..] == [""] || !Blank(lines[1]))
  {
    hide Blank, IsShebang, Settle;
    SettleShebang(lines);
    BlankEmpty();
    var rest := AfterFirst(lines);
    var s := SkipBlank(rest, 0);
    if |lines| > 1 && !Blank(lines[1]) {
      SkipBlankIs(rest, 0, 0);
      assert [lines[0]] + rest[0..] == lines;
    } else if |lines| > 1 && lines[1..] == [""] {
      SkipBlankIs(rest, 0, 1);
      assert lines == [lines[0], ""];
    } else if s < |rest| {
      assert |Settle(lines)| < |lines|;
    } else if |lines| > 1 {
      assert lines[1] == rest[0] && Blank(rest[0]);
      assert [lines[0]] + lines[1..] == lines;
    }
  }

  lemma SettleIsPlain(lines: seq<string>)
    requires lines != [] && !IsShebang(lines[0]) && !IsShebang("")
    ensures Settle(lines) == lines <==> lines == ["", ""] || !Blank(lines[0])
  {
    hide Blank, IsShebang;
    BlankEmpty();
    SettlePlain(lines);
    if Blank(lines[0]) && lines != ["", ""] {
      var s := SkipBlank(lines, 0);
      assert s > 0;
      assert lines[..0] + lines[s..] == lines[s..];
      if s < |lines| {
        assert lines[s..][0] == lines[s];
        assert Settle(lines)[0] == lines[s];
      }
    }
  }

  // ---------------------------------------------------------------- whole files

  /** The name to look for; in four words, as `TITLE` is. */
  const LICENSE_NAME := "gnu affero " + "general " + "public " + "license"

  predicate NamesLicense(line: string) {
    Includes(Lower(line), LICENSE_NAME) || Includes(Lower(line), "agpl")
  }

  predicate NamesProduct(line: string) {
    Includes(Lower(line), "fluxer")
  }

  /** How many lines `detectLicense` looks at. */
  const WINDOW := 25

  predicate NamedWithin(lines: seq<string>, n: nat) {
    && (exists i :: 0 <= i < |lines| && i < n && NamesLicense(lines[i]))
    && (exists i :: 0 <= i < |lines| && i < n && NamesProduct(lines[i]))
  }

  predicate HasHeader(content: string) {
    NamedWithin(Lines(content), WINDOW)
  }

  /** The flags of `detectLicense`. */
  method DetectLicense(content: string) returns (hasHeader: bool)
    ensures hasHeader == HasHeader(content)
    ensures hasHeader <==>
              && (exists i :: 0 <= i < |Lines(content)| && i < 25 && NamesLicense(Lines(content)[i]))
              && (exists j :: 0 <= j < |Lines(content)| && j < 25 && NamesProduct(Lines(content)[j]))
  {
    hide NamesLicense, NamesProduct;
    var all := Lines(content);
    var lines := if |all| <= WINDOW then all else all[..WINDOW];
    var hasAgpl, hasFluxer := false, false;
    for k := 0 to |lines|
      invariant hasAgpl <==> exists i :: 0 <= i < k && NamesLicense(all[i])
      invariant hasFluxer <==> exists i :: 0 <= i < k && NamesProduct(all[i])
    {
      if NamesLicense(lines[k]) {
        hasAgpl := true;
      }
      if NamesProduct(lines[k]) {
        hasFluxer := true;
      }
    }
    hasHeader := hasAgpl && hasFluxer;
    HasHeaderIff(content);
  }

  /** Each name is looked for on its own, so they may stand on different lines. */
  lemma HasHeaderIff(content: string)
    ensures HasHeader(content) <==>
              && (exists i :: 0 <= i < |Lines(content)| && i < 25 && NamesLicense(Lines(content)[i]))
              && (exists j :: 0 <= j < |Lines(content)| && j < 25 && NamesProduct(Lines(content)[j]))
  {
    hide NamesLicense, NamesProduct, HasHeader, Lines;
    HasHeaderIs(content);
    NamedWithinFirst(Lines(content));
  }

  lemma NamedWithinFirst(lines: seq<string>)
    ensures NamedWithin(lines, WINDOW) <==>
              && (exists i :: 0 <= i < |lines| && i < 25 && NamesLicense(lines[i]))
              && (exists j :: 0 <= j < |lines| && j < 25 && NamesProduct(lines[j]))
  {
    hide NamesLicense, NamesProduct;
  }

  /** What `processFile` writes when it adds or normalises a header. In its remaining branch
      (`None`) it changes at most a year. */
  function Process(content: string, style: Style, texts: seq<string>): Option<string> {
    if !HasHeader(content) then Some(AddHeader(content, style, texts))
    else Normalize(content, style, texts)
  }

  /** The text names the licence and the product, and its comment fits the detection window
      below a shebang line and a blank one. */
  predicate Recognisable(texts: seq<string>) {
    |texts| <= WINDOW - 4 && NamedWithin(texts, |texts|)
  }

  lemma {:induction false} LowerAppend(a: string, b: string)
    ensures Lower(a + b) == Lower(a) + Lower(b)
  {
    hide LowerChar;
    if a == "" {
      assert a + b == b;
    } else {
      assert (a + b)[1..] == a[1..] + b;
      LowerAppend(a[1..], b);
    }
  }

  lemma IncludesAfter(a: string, b: string, pat: string)
    requires Includes(b, pat)
    ensures Includes(a + b, pat)
  {
    var i :| 0 <= i <= |b| && At(b, pat, i);
    assert forall n :: |a| <= n < |a + b| ==> (a + b)[n] == b[n - |a|];
    assert At(a + b, pat, |a| + i);
  }

  lemma CommentKeepsNames(mark: string, text: string)
    ensures NamesLicense(text) ==> NamesLicense(Comment(mark, text))
    ensures NamesProduct(text) ==> NamesProduct(Comment(mark, text))
  {
    hide Includes, Lower, LICENSE_NAME;
    if text != "" {
      var m := mark + " ";
      assert Comment(mark, text) == m + text;
      LowerAppend(m, text);
      if Includes(Lower(text), LICENSE_NAME) {
        IncludesAfter(Lower(m), Lower(text), LICENSE_NAME);
      }
      if Includes(Lower(text), "agpl") {
        IncludesAfter(Lower(m), Lower(text), "agpl");
      }
      if Includes(Lower(text), "fluxer") {
        IncludesAfter(Lower(m), Lower(text), "fluxer");
      }
    } else {
      NothingNamed();
    }
  }

  lemma NothingNamed()
    ensures !NamesLicense("") && !NamesProduct("")
  {
    assert Lower("") == "";
  }

  /** Comment marks do not hide the names in a header's text. */
  lemma HeaderIsNamed(style: Style, texts: seq<string>)
    requires NamedWithin(texts, |texts|)
    ensures var h := Header(style, texts); |h| <= |texts| + 2 && NamedWithin(h, |h|)
  {
    hide NamesLicense, NamesProduct;
    var h := Header(style, texts);
    var mark := if style == Block then " *" else style.prefix;
    var off := if style == Block then 1 else 0;
    forall i | 0 <= i < |texts|
      ensures NamesLicense(texts[i]) ==> NamesLicense(h[off + i])
      ensures NamesProduct(texts[i]) ==> NamesProduct(h[off + i])
    {
      assert h[off + i] == Comment(mark, texts[i]);
      CommentKeepsNames(mark, texts[i]);
    }
  }

  lemma NamedBelow(before: seq<string>, h: seq<string>, after: seq<string>, n: nat)
    requires NamedWithin(h, |h|) && |before| + |h| <= n
    ensures NamedWithin(before + h + after, n)
  {
    hide NamesLicense, NamesProduct;
    var all := before + h + after;
    var i :| 0 <= i < |h| && NamesLicense(h[i]);
    var j :| 0 <= j < |h| && NamesProduct(h[j]);
    assert all[|before| + i] == h[i] && all[|before| + j] == h[j];
  }

  /** A file that was given a header is recognised as having one. */
  lemma AddedIsDetected(content: string, style: Style, texts: seq<string>)
    requires Known(style) && GoodText(texts) && Recognisable(texts)
    ensures HasHeader(AddHeader(content, style, texts))
  {
    hide NamedWithin, AddHeader, Lines, GoodText, IsShebang, Header, AfterFirst;
    AddHeaderLines(content, style, texts);
    HeaderIsNamed(style, texts);
    var lines, h := Lines(content), Header(style, texts);
    if IsShebang(lines[0]) {
      NamedBelow([lines[0], ""], h, [""] + AfterFirst(lines), WINDOW);
      assert [lines[0], ""] + h + ([""] + AfterFirst(lines)) == AddLines(lines, h);
    } else {
      NamedBelow([], h, [""] + lines, WINDOW);
      assert [] + h + ([""] + lines) == AddLines(lines, h);
    }
  }

  /** `low` is `s` in lower case, character by character. */
  lemma {:induction false} LowerIs(s: string, low: string)
    requires |s| == |low| && forall i :: 0 <= i < |s| ==> LowerChar(s[i]) == [low[i]]
    ensures Lower(s) == low
  {
    if s != "" {
      assert LowerChar(s[0]) == [low[0]];
      assert forall i :: 0 <= i < |s| - 1 ==> s[1..][i] == s[i + 1] && low[1..][i] == low[i + 1];
      LowerIs(s[1..], low[1..]);
      assert low == [low[0]] + low[1..];
    }
  }

  lemma IncludesWithin(a: string, b: string, c: string)
    ensures Includes(a + b + c, b)
  {
    var s := a + b + c;
    assert forall k :: 0 <= k < |b| ==> s[|a| + k] == b[k];
    assert At(s, b, |a|);
  }

  lemma SplitAt(line: string, pat: string)
    returns (before: string, after: string)
    requires Includes(line, pat)
    ensures line == before + pat + after
  {
    var k :| 0 <= k <= |line| && At(line, pat, k);
    before, after := line[..k], line[k + |pat|..];
    assert line[k..k + |pat|] == pat;
  }

  /** A name in a line is found whatever its case. */
  lemma LowerIncludes(line: string, pat: string)
    requires Includes(line, pat)
    ensures Includes(Lower(line), Lower(pat))
  {
    hide Lower, Includes;
    var a, b := SplitAt(line, pat);
    LowerAppend(a + pat, b);
    LowerAppend(a, pat);
    IncludesWithin(Lower(a), Lower(pat), Lower(b));
  }

  /** The licence as the templates name it; in four words, as its proof in lower case goes word by word. */
  const TITLE := "GNU Affero " + "General " + "Public " + "License"

  lemma LowerGnu()
    ensures Lower("GNU Affero ") == "gnu affero "
  {
    LowerIs("GNU Affero ", "gnu affero ");
  }

  lemma LowerGeneral()
    ensures Lower("General ") == "general "
  {
    LowerIs("General ", "general ");
  }

  lemma LowerPublic()
    ensures Lower("Public ") == "public "
  {
    LowerIs("Public ", "public ");
  }

  lemma LowerLicense()
    ensures Lower("License") == "license"
  {
    LowerIs("License", "license");
  }

  lemma LowerFluxer()
    ensures Lower("Fluxer") == "fluxer"
  {
    LowerIs("Fluxer", "fluxer");
  }

  lemma LowerFour(a: string, b: string, c: string, d: string)
    ensures Lower(a + b + c + d) == Lower(a) + Lower(b) + Lower(c) + Lower(d)
  {
    hide Lower;
    LowerAppend(a, b);
    LowerAppend(a + b, c);
    LowerAppend(a + b + c, d);
  }

  lemma LowerTitle()
    ensures Lower(TITLE) == LICENSE_NAME
  {
    hide Lower;
    LowerGnu();
    LowerGeneral();
    LowerPublic();
    LowerLicense();
    LowerFour("GNU Affero ", "General ", "Public ", "License");
  }

  /** A line names the licence if it has its title or its short name, and the product if it has that,
      in whatever case. */
  lemma NamesInAnyCase(line: string)
    ensures Includes(line, TITLE) || Includes(line, "AGPL") || Includes(line, "agpl") ==> NamesLicense(line)
    ensures Includes(line, "Fluxer") || Includes(line, "fluxer") ==> NamesProduct(line)
  {
    LowerTitle();
    LowerFluxer();
    LowerNames();
    hide Includes, Lower, TITLE, LICENSE_NAME;
    if Includes(line, TITLE) { LowerIncludes(line, TITLE); }
    if Includes(line, "AGPL") { LowerIncludes(line, "AGPL"); }
    if Includes(line, "agpl") { LowerIncludes(line, "agpl"); }
    if Includes(line, "Fluxer") { LowerIncludes(line, "Fluxer"); }
    if Includes(line, "fluxer") { LowerIncludes(line, "fluxer"); }
  }

  lemma LowerNames()
    ensures Lower("AGPL") == "agpl" && Lower("agpl") == "agpl" && Lower("fluxer") == "fluxer"
  {
    LowerIs("AGPL", "agpl");
    LowerIs("agpl", "agpl");
    LowerIs("fluxer", "fluxer");
  }

  /** A short text that names the licence in one line and the product in another, as the three
      templates do, makes a header that is recognised. */
  lemma TemplateIsRecognisable(texts: seq<string>)
    requires |texts| <= WINDOW - 4
    requires exists i :: 0 <= i < |texts| && Includes(texts[i], TITLE)
    requires exists j :: 0 <= j < |texts| && Includes(texts[j], "Fluxer")
    ensures Recognisable(texts)
  {
    LowerTitle();
    LowerFluxer();
    hide Includes, Lower, TITLE, LICENSE_NAME;
    var i :| 0 <= i < |texts| && Includes(texts[i], TITLE);
    var j :| 0 <= j < |texts| && Includes(texts[j], "Fluxer");
    LowerIncludes(texts[i], TITLE);
    LowerIncludes(texts[j], "Fluxer");
  }

  /** The end of a header is found where it is, if nothing follows it. */
  lemma HeaderEndsAlone(h: seq<string>, style: Style)
    requires GoodHeader(h, style)
    ensures KeptFrom(h, style) == Some(|h|)
  {
    FirstOfHeader(h, style);
    hide Blank, IsComment, Includes, IsShebang;
    assert SkipBlank(h, 0) == 0;
    match style
    case Block =>
      assert FindClose(h, 0) == |h| - 1;
    case Line(prefix) =>
      assert SkipComments(h, 0, prefix) == |h|;
  }

  /** A recognised file that one rewriting does not bring to normal form: the second changes it again. */
  ghost predicate NeedsTwo(content: string, style: Style, texts: seq<string>) {
    var once := Process(content, style, texts);
    && HasHeader(content)
    && once.Some? && Process(once.value, style, texts).Some? && Process(once.value, style, texts) != once
  }

  lemma NeedsTwoUnlessNormal(content: string, style: Style, texts: seq<string>)
    requires Known(style) && GoodText(texts) && Recognisable(texts)
    requires HasHeader(content) && KeptFrom(Lines(content), style).Some? && !NormalAtOnce(content, style)
    ensures NeedsTwo(content, style, texts)
  {
    assert Strip(content, style).Some?;
    hide *;
    NormalizeOnceIff(content, style, texts);
    var s := Strip(content, style).value;
    AddedIsDetected(s, style, texts);
    StripAddHeader(s, style, texts);
    ProcessIsNormalize(content, style, texts);
    ProcessIsNormalize(AddHeader(s, style, texts), style, texts);
  }

  lemma ProcessIsNormalize(content: string, style: Style, texts: seq<string>)
    requires HasHeader(content) && Strip(content, style).Some?
    ensures Process(content, style, texts) == Normalize(content, style, texts) ==
            Some(AddHeader(Strip(content, style).value, style, texts))
  {
    hide HasHeader, Strip, AddHeader;
  }

  /** A file that is a header alone, without a newline at its end, needs two rewritings: in every
      style, with every text. */
  lemma HeaderAloneIsNotNormal(style: Style, texts: seq<string>)
    requires Known(style) && GoodText(texts) && Recognisable(texts)
    ensures NeedsTwo(Join(Header(style, texts), [NL]), style, texts)
  {
    var h := Header(style, texts);
    HeaderIsGood(style, texts);
    HeaderIsNamed(style, texts);
    hide *;
    AloneIsNotNormal(h, style);
    NamedAlone(h, |texts|);
    assert Recognisable(texts) ==> |texts| <= WINDOW - 4;
    NeedsTwoUnlessNormal(Join(h, [NL]), style, texts);
  }

  lemma AloneIsNotNormal(h: seq<string>, style: Style)
    requires GoodHeader(h, style)
    ensures var content := Join(h, [NL]);
            && Lines(content) == h && KeptFrom(h, style).Some? && !NormalAtOnce(content, style)
  {
    FirstOfHeader(h, style);
    GoodHasNoNewline(h, style);
    LinesOfJoin(h);
    HeaderEndsAlone(h, style);
    EndsWithNewline(Join(h, [NL]));
    LastOfHeader(h, style);
    hide Lines, Join, KeptFrom, Blank, IsShebang, GoodHeader;
  }

  lemma LastOfHeader(h: seq<string>, style: Style)
    requires GoodHeader(h, style)
    ensures h != [] && h[|h| - 1] != ""
  {
    BlankEmpty();
  }

  lemma NamedAlone(h: seq<string>, n: nat)
    requires NamedWithin(h, |h|) && |h| <= n + 2 && n <= WINDOW - 4
    ensures NamedWithin(h, WINDOW)
  {
  }

  /** So does a file whose shebang line is below its header and has a blank line below it. */
  lemma ShebangBelowIsNotNormal(style: Style, texts: seq<string>, shebang: string, rest: seq<string>)
    requires Known(style) && GoodText(texts) && Recognisable(texts)
    requires IsShebang(shebang) && NoNewline(shebang) && AllNoNewline(rest) && rest != []
    ensures NeedsTwo(Join(Header(style, texts) + [""] + ([shebang, ""] + rest), [NL]), style, texts)
  {
    var h := Header(style, texts);
    HeaderIsGood(style, texts);
    HeaderIsNamed(style, texts);
    hide *;
    var tail := [shebang, ""] + rest;
    ShebangIsNotNormal(h, shebang, rest, style);
    NamedAlone(h, |texts|);
    NamedAbove(h, tail);
    NeedsTwoUnlessNormal(Join(h + [""] + tail, [NL]), style, texts);
  }

  lemma NamedAbove(h: seq<string>, tail: seq<string>)
    requires NamedWithin(h, WINDOW)
    ensures NamedWithin(h + [""] + tail, WINDOW)
  {
    hide NamesLicense, NamesProduct;
    var i :| 0 <= i < |h| && i < WINDOW && NamesLicense(h[i]);
    var j :| 0 <= j < |h| && j < WINDOW && NamesProduct(h[j]);
    assert (h + [""] + tail)[i] == h[i] && (h + [""] + tail)[j] == h[j];
  }

  lemma ShebangIsNotNormal(h: seq<string>, shebang: string, rest: seq<string>, style: Style)
    requires GoodHeader(h, style)
    requires IsShebang(shebang) && NoNewline(shebang) && AllNoNewline(rest) && rest != []
    ensures var lines := h + [""] + ([shebang, ""] + rest);
            var content := Join(lines, [NL]);
            && Lines(content) == lines && KeptFrom(lines, style).Some? && !NormalAtOnce(content, style)
  {
    hide Join, Lines, KeptFrom, Blank, IsShebang, GoodHeader, NormalAtOnce;
    var tail := [shebang, ""] + rest;
    var lines := h + [""] + tail;
    AllOfShown(h, shebang, rest, style);
    LinesOfJoin(lines);
    KeptAtShebang(h, tail, style);
    NotNormalIf(Join(lines, [NL]), |h| + 1, style);
  }

  lemma AllOfShown(h: seq<string>, shebang: string, rest: seq<string>, style: Style)
    requires GoodHeader(h, style) && NoNewline(shebang) && AllNoNewline(rest) && rest != []
    ensures var tail := [shebang, ""] + rest;
            && AllNoNewline(h + [""] + tail) && h + [""] + tail != []
            && tail[0] == shebang && tail[1] == "" && |tail| > 2
  {
    GoodHasNoNewline(h, style);
    hide GoodHeader, NoNewline;
    TailOfShown(shebang, rest);
    ParagraphsNoNewline(h, [shebang, ""] + rest);
  }

  lemma TailOfShown(shebang: string, rest: seq<string>)
    requires NoNewline(shebang) && AllNoNewline(rest)
    ensures AllNoNewline([shebang, ""] + rest)
  {
    assert NoNewline("");
    hide NoNewline;
  }

  /** What is kept begins with a shebang line and a blank one, and does not end there. */
  lemma NotNormalIf(content: string, after: nat, style: Style)
    requires KeptFrom(Lines(content), style) == Some(after)
    requires var lines := Lines(content);
             !IsShebang(lines[0]) && after + 2 < |lines| && IsShebang(lines[after]) && lines[after + 1] == ""
    ensures !NormalAtOnce(content, style)
  {
    hide Lines, KeptFrom, IsShebang;
  }

  lemma GoodHasNoNewline(h: seq<string>, style: Style)
    requires GoodHeader(h, style)
    ensures AllNoNewline(h)
  {
  }

  /** Below a header and an empty line the text is kept from its first line on. */
  lemma KeptAtShebang(h: seq<string>, tail: seq<string>, style: Style)
    requires GoodHeader(h, style) && tail != [] && IsShebang(tail[0])
    ensures var lines := h + [""] + tail;
            && !IsShebang(lines[0])
            && KeptFrom(lines, style) == Some(|h| + 1)
            && lines[|h| + 1] == tail[0] && lines[|h| + 2..] == tail[1..] && (|tail| > 1 ==> lines[|h| + 2] == tail[1])
  {
    hide Blank, IsShebang, GoodHeader, KeptFrom, SkipBlank, IsComment, AllNoNewline, HeaderEnd;
    FirstOfHeader(h, style);
    ShebangNotBlank(tail[0]);
    SkipBlankIs(tail, 0, 0);
    BelowHeader(h, tail);
    KeptBelowHeader([], h, tail, style);
  }

  lemma BelowHeader(h: seq<string>, tail: seq<string>)
    requires h != [] && tail != []
    ensures var lines := h + [""] + tail;
            && [] + h + [""] + tail == lines && lines[0] == h[0]
            && lines[|h| + 1] == tail[0] && lines[|h| + 2..] == tail[1..] && (|tail| > 1 ==> lines[|h| + 2] == tail[1])
  {
  }

  /** Processing a file again and again: whatever the file, if it is rewritten at all then it is
      rewritten every time, and from the third time on to the same content; from the second
      time on if it had a header to begin with. */
  lemma ProcessingConverges(content: string, style: Style, texts: seq<string>)
    requires Known(style) && GoodText(texts) && Recognisable(texts)
    requires Process(content, style, texts).Some?
    ensures var p1 := Process(content, style, texts).value;
            && Process(p1, style, texts).Some?
            && var p2 := Process(p1, style, texts).value;
            && Process(p2, style, texts).Some?
            && var p3 := Process(p2, style, texts).value;
            && Process(p3, style, texts) == Some(p3)
            && (HasHeader(content) ==> p3 == p2)
  {
    hide HasHeader, Strip, AddHeader, Lines, Settle, StripLines, AddLines, GoodText, Header, Recognisable;
    forall c ensures HasHeader(AddHeader(c, style, texts)) {
      AddedIsDetected(c, style, texts);
    }
    if HasHeader(content) {
      NormalizeReachesFixpoint(content, style, texts);
    } else {
      var p1 := AddHeader(content, style, texts);
      StripAddHeader(content, style, texts);
      NormalizeReachesFixpoint(p1, style, texts);
    }
  }

  // ---------------------------------------------------------------- what is lost

  /** The lines that stripping takes for the header. */
  function Taken(lines: seq<string>, style: Style): seq<string>
    requires KeptFrom(lines, style).Some?
  {
    var start := SkipBlank(lines, ShebangCount(lines));
    lines[start..HeaderEnd(lines, start, style).value]
  }

  predicate AllBlank(ls: seq<string>) {
    forall i :: 0 <= i < |ls| ==> Blank(ls[i])
  }

  /** One comment: in the block style up to and with the first line that closes it, in a line style
      lines of the prefix only. */
  predicate IsOneComment(ls: seq<string>, style: Style) {
    && ls != [] && !Blank(ls[0])
    && match style
       case Block =>
         && IsComment(ls[0], "/*") && Includes(ls[|ls| - 1], "*/")
         && (forall i :: 0 <= i < |ls| - 1 ==> !Includes(ls[i], "*/"))
       case Line(prefix) => forall i :: 0 <= i < |ls| ==> !Blank(ls[i]) && IsComment(ls[i], prefix)
  }

  /** Normalising deletes the first comment below the shebang line, and blank lines above and below
      it; nothing else. */
  lemma LossIsOneComment(lines: seq<string>, style: Style) returns (above: seq<string>, below: seq<string>)
    requires lines != [] && KeptFrom(lines, style).Some?
    ensures IsOneComment(Taken(lines, style), style) && AllBlank(above) && AllBlank(below)
    ensures lines == lines[..ShebangCount(lines)] + above + Taken(lines, style) + below + lines[KeptFrom(lines, style).value..]
  {
    hide Blank, Includes, IsComment, IsShebang;
    var c := ShebangCount(lines);
    var start := SkipBlank(lines, c);
    var end := HeaderEnd(lines, start, style).value;
    above, below := lines[c..start], lines[end..SkipBlank(lines, end)];
    TakenIsOneComment(lines, style);
    TakenEnds(lines, style);
    Pieces(lines, c, start, end, SkipBlank(lines, end));
  }

  lemma TakenEnds(lines: seq<string>, style: Style)
    requires KeptFrom(lines, style).Some?
    ensures var start := SkipBlank(lines, ShebangCount(lines));
            start < HeaderEnd(lines, start, style).value
  {
    hide Blank, Includes, IsComment, IsShebang;
  }

  lemma TakenIsOneComment(lines: seq<string>, style: Style)
    requires KeptFrom(lines, style).Some?
    ensures IsOneComment(Taken(lines, style), style)
  {
    hide Blank, Includes, IsComment, IsShebang;
    TakenEnds(lines, style);
    var start := SkipBlank(lines, ShebangCount(lines));
    var end := HeaderEnd(lines, start, style).value;
    assert forall i :: 0 <= i < end - start ==> lines[start..end][i] == lines[start + i];
  }

  lemma Pieces(lines: seq<string>, a: nat, b: nat, c: nat, d: nat)
    requires a <= b <= c <= d <= |lines|
    ensures lines == lines[..a] + lines[a..b] + lines[b..c] + lines[c..d] + lines[d..]
  {
    assert lines[..a] + lines[a..b] == lines[..b];
    assert lines[..b] + lines[b..c] == lines[..c];
    assert lines[..c] + lines[c..d] == lines[..d];
  }

  /** Of a header with `rest` right below it, just the header is taken, exactly if it is a block, or
      `rest` is nothing or begins with a blank line or with one that is no comment line: a comment
      right below a header in a line style is taken with it. */
  lemma JustHeaderTakenIff(before: seq<string>, h: seq<string>, rest: seq<string>, style: Style)
    requires GoodHeader(h, style)
    ensures HeaderEnd(before + h + rest, |before|, style) == Some(|before| + |h|) <==>
              style.Block? || rest == [] || Blank(rest[0]) || !IsComment(rest[0], style.prefix)
  {
    hide *;
    var lines := before + h + rest;
    LinesAre(before, h, rest);
    match style
    case Block =>
      BlockEnds(lines, |before|, h);
    case Line(prefix) =>
      RunOfComments(lines, |before|, h, prefix);
  }

  lemma LinesAre(before: seq<string>, h: seq<string>, rest: seq<string>)
    ensures var lines := before + h + rest;
            && |lines| == |before| + |h| + |rest|
            && (forall k :: |before| <= k < |before| + |h| ==> lines[k] == h[k - |before|])
            && (rest != [] ==> lines[|before| + |h|] == rest[0])
  {
  }

  lemma BlockEnds(lines: seq<string>, start: nat, h: seq<string>)
    requires GoodHeader(h, Block) && start + |h| <= |lines|
    requires forall k :: start <= k < start + |h| ==> lines[k] == h[k - start]
    ensures HeaderEnd(lines, start, Block) == Some(start + |h|)
  {
    hide Blank, IsComment, Includes, IsShebang;
    assert lines[start] == h[0] && lines[start + |h| - 1] == h[|h| - 1];
    var close := FindClose(lines, start);
    assert close <= start + |h| - 1;
    assert lines[close] == h[close - start];
  }

  lemma RunOfComments(lines: seq<string>, start: nat, h: seq<string>, prefix: string)
    requires GoodHeader(h, Line(prefix)) && start + |h| <= |lines|
    requires forall k :: start <= k < start + |h| ==> lines[k] == h[k - start]
    ensures var end := start + |h|;
            HeaderEnd(lines, start, Line(prefix)) == Some(end) <==>
              end == |lines| || Blank(lines[end]) || !IsComment(lines[end], prefix)
  {
    hide Blank, IsComment, Includes, IsShebang;
    assert lines[start] == h[0];
    var stop := SkipComments(lines, start, prefix);
    var atStop := if stop < |lines| then lines[stop] else "";
  }

  /** What becomes of a file that begins with a comment of its author's, with an empty line below it. */
  lemma OwnCommentStripped(own: seq<string>, rest: seq<string>, style: Style)
    requires GoodHeader(own, style) && rest != []
    ensures var lines := own + [""] + rest;
            && StripLines(lines, style) == Some(Finish(rest[SkipBlank(rest, 0)..], rest[|rest| - 1] == ""))
            && |StripLines(lines, style).value| <= |rest| + 1 < |lines| && !IsShebang(lines[0])
  {
    FirstOfHeader(own, style);
    BelowHeader(own, rest);
    hide *;
    StripPlain(own, rest, style);
    FinishShrinks(rest, SkipBlank(rest, 0));
  }

  lemma StripPlain(h: seq<string>, rest: seq<string>, style: Style)
    requires GoodHeader(h, style) && rest != [] && !IsShebang(([] + h + [""] + rest)[0])
    ensures StripLines([] + h + [""] + rest, style) == Some(Finish(rest[SkipBlank(rest, 0)..], rest[|rest| - 1] == ""))
  {
    NoShebang([] + h + [""] + rest);
    hide *;
    StripBelowHeader([], h, rest, style, 0);
    NothingAbove(rest[SkipBlank(rest, 0)..]);
  }

  lemma NoShebang(lines: seq<string>)
    requires lines != [] && !IsShebang(lines[0])
    ensures ShebangCount(lines) == 0
  {
  }

  lemma NothingAbove(kept: seq<string>)
    ensures var none: seq<string> := []; none[..0] + kept == kept
  {
  }

  lemma FinishShrinks(rest: seq<string>, s: nat)
    requires rest != [] && s <= |rest|
    ensures |Finish(rest[s..], rest[|rest| - 1] == "")| <= |rest| + 1
  {
    var kept := rest[s..];
    assert kept != [] ==> kept[|kept| - 1] == rest[|rest| - 1];
  }

  /** The author's comment is deleted exactly if both names occur in the first lines of the file, be
      it in the comment or below it; else it is kept, with the header above it. */
  lemma OwnCommentLostIff(own: seq<string>, rest: seq<string>, style: Style, texts: seq<string>)
    requires Known(style) && GoodText(texts) && GoodHeader(own, style) && AllNoNewline(rest) && rest != []
    ensures var content := Join(own + [""] + rest, [NL]);
            var done := Process(content, style, texts);
            && done.Some?
            && (HasHeader(content) <==> NamedWithin(own + [""] + rest, WINDOW))
            && (done == Some(AddHeader(content, style, texts)) <==> !HasHeader(content))
            && (HasHeader(content) ==>
                  Lines(done.value) == AddLines(Finish(rest[SkipBlank(rest, 0)..], rest[|rest| - 1] == ""), Header(style, texts)))
  {
    hide *;
    var lines := own + [""] + rest;
    var content := Join(lines, [NL]);
    OwnCommentContent(own, rest, style);
    HasHeaderIs(content);
    if HasHeader(content) {
      var s := Strip(content, style).value;
      ProcessIsNormalize(content, style, texts);
      AddedApart(s, content, style, texts);
    } else {
      ProcessAdds(content, style, texts);
    }
  }

  lemma OwnCommentContent(own: seq<string>, rest: seq<string>, style: Style)
    requires GoodHeader(own, style) && AllNoNewline(rest) && rest != []
    ensures var lines := own + [""] + rest;
            var content := Join(lines, [NL]);
            && Lines(content) == lines && !IsShebang(lines[0])
            && Strip(content, style).Some?
            && Lines(Strip(content, style).value) == Finish(rest[SkipBlank(rest, 0)..], rest[|rest| - 1] == "")
            && |Lines(Strip(content, style).value)| < |lines|
  {
    hide *;
    var lines := own + [""] + rest;
    GoodHasNoNewline(own, style);
    ParagraphsNoNewline(own, rest);
    LinesOfJoin(lines);
    OwnCommentStripped(own, rest, style);
    StripIsStripLines(Join(lines, [NL]), style);
  }

  lemma ParagraphsNoNewline(a: seq<string>, b: seq<string>)
    requires AllNoNewline(a) && AllNoNewline(b)
    ensures AllNoNewline(a + [""] + b)
  {
  }

  lemma HasHeaderIs(content: string)
    ensures HasHeader(content) <==> NamedWithin(Lines(content), WINDOW)
  {
    hide NamedWithin;
  }

  /** Two contents of different lines are different with a header, if one has no shebang line. */
  lemma AddedApart(a: string, b: string, style: Style, texts: seq<string>)
    requires Known(style) && GoodText(texts) && !IsShebang(Lines(b)[0]) && Lines(a) != Lines(b)
    ensures Lines(AddHeader(a, style, texts)) == AddLines(Lines(a), Header(style, texts))
    ensures AddHeader(a, style, texts) != AddHeader(b, style, texts)
  {
    HeaderIsGood(style, texts);
    FirstOfHeader(Header(style, texts), style);
    hide *;
    AddHeaderLines(a, style, texts);
    AddHeaderLines(b, style, texts);
    AddedPlain(Lines(a), Lines(b), Header(style, texts));
  }

  lemma ProcessAdds(content: string, style: Style, texts: seq<string>)
    requires !HasHeader(content)
    ensures Process(content, style, texts) == Some(AddHeader(content, style, texts))
  {
  }
}
