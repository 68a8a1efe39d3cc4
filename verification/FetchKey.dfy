/** The key under which in-flight message fetches are shared: a JSON text of the normalised
    arguments. Two calls share a key exactly if their normalised arguments agree. */
module FetchKey {
  import opened Wrappers
  import Strings = Text

  /** Jump options; `None` stands for a field that is absent or null. */
  datatype Jump = Jump(present: Option<bool>, messageId: Option<string>, offset: Option<int>, flash: Option<bool>,
                       returnMessageId: Option<string>, jumpType: Option<string>)

  datatype Args = Args(channelId: string, before: Option<string>, after: Option<string>, limit: int, jump: Option<Jump>)

  /** The options as the key has them: defaults filled in. */
  datatype FullJump = FullJump(present: bool, messageId: Option<string>, offset: int, flash: bool,
                               returnMessageId: Option<string>, jumpType: Option<string>)

  datatype Request = Request(channelId: string, before: Option<string>, after: Option<string>, limit: int, jump: Option<FullJump>)

  function OrElse<T>(o: Option<T>, default: T): T {
    if o.Some? then o.value else default
  }

  function Normalize(a: Args): Request {
    Request(a.channelId, a.before, a.after, a.limit,
      if a.jump.None? then None else
        var j := a.jump.value;
        Some(FullJump(OrElse(j.present, false), j.messageId, OrElse(j.offset, 0), OrElse(j.flash, false),
                      j.returnMessageId, j.jumpType)))
  }

  // ---------------------------------------------------------------- JSON.stringify

  function HexDigit(n: nat): char
    requires n < 16
  {
    if n < 10 then '0' + n as char else 'a' + (n - 10) as char
  }

  /** A character as it stands within a JSON string. */
  function Escape(c: char): string {
    if c == '\"' then "\\\""
    else if c == '\\' then "\\\\"
    else if c == '\U{0008}' then "\\b"
    else if c == '\U{000C}' then "\\f"
    else if c == '\n' then "\\n"
    else if c == '\r' then "\\r"
    else if c == '\t' then "\\t"
    else if c < ' ' then "\\u00" + [HexDigit(c as nat / 16), HexDigit(c as nat % 16)]
    else [c]
  }

  /** A JSON string after its opening quote. */
  function Body(s: string): string {
    if s == "" then "\"" else Escape(s[0]) + Body(s[1..])
  }

  function Quote(s: string): string {
    "\"" + Body(s)
  }

  function OptText(o: Option<string>): string {
    if o.None? then "null" else Quote(o.value)
  }

  function BoolText(b: bool): string {
    if b then "true" else "false"
  }

  function Digit(n: nat): char
    requires n < 10
  {
    '0' + n as char
  }

  function Digits(n: nat): (r: string)
    ensures r != "" && forall i :: 0 <= i < |r| ==> Strings.IsDigit(r[i])
  {
    if n < 10 then [Digit(n)] else Digits(n / 10) + [Digit(n % 10)]
  }

  function IntText(i: int): string {
    if i < 0 then "-" + Digits(-i) else Digits(i)
  }

  /** The jump as an object, and the rest of the text after it. */
  function JumpText(j: FullJump, rest: string): string {
    "{\"present\":" + (BoolText(j.present) + (",\"messageId\":" + (OptText(j.messageId) + (",\"offset\":" + (IntText(j.offset)
    + (",\"flash\":" + (BoolText(j.flash) + (",\"returnMessageId\":" + (OptText(j.returnMessageId)
    + (",\"jumpType\":" + (OptText(j.jumpType) + ("}" + rest))))))))))))
  }

  function OptJumpText(j: Option<FullJump>, rest: string): string {
    if j.None? then "null" + rest else JumpText(j.value, rest)
  }

  /** `makeFetchKey`, after the defaults are filled in */
  function Text(r: Request): string {
    "{\"channelId\":" + (Quote(r.channelId) + (",\"before\":" + (OptText(r.before) + (",\"after\":" + (OptText(r.after)
    + (",\"limit\":" + (IntText(r.limit) + (",\"jump\":" + OptJumpText(r.jump, "}")))))))))
  }

  function MakeFetchKey(a: Args): string {
    Text(Normalize(a))
  }

  // ---------------------------------------------------------------- reading it back

  lemma Drop(p: string, x: string, y: string)
    requires p + x == p + y
    ensures x == y
  {
    assert x == (p + x)[|p|..];
  }

  lemma HexDigitInjective(m: nat, n: nat)
    requires m < 16 && n < 16 && HexDigit(m) == HexDigit(n)
    ensures m == n
  {
  }

  /** The character that follows the backslash, if one is put. */
  function EscapeCode(c: char): char {
    if c == '\"' then '\"'
    else if c == '\\' then '\\'
    else if c == '\U{0008}' then 'b'
    else if c == '\U{000C}' then 'f'
    else if c == '\n' then 'n'
    else if c == '\r' then 'r'
    else if c == '\t' then 't'
    else 'u'
  }

  predicate Escaped(c: char) {
    c == '\"' || c == '\\' || c < ' '
  }

  lemma EscapeShape(c: char)
    ensures !Escaped(c) ==> Escape(c) == [c]
    ensures Escaped(c) && EscapeCode(c) != 'u' ==> Escape(c) == ['\\', EscapeCode(c)]
    ensures Escaped(c) && EscapeCode(c) == 'u' ==>
              Escape(c) == ['\\', 'u', '0', '0', HexDigit(c as nat / 16), HexDigit(c as nat % 16)]
  {
  }

  lemma EscapeIsPrefixFree(c: char, d: char, x: string, y: string)
    requires Escape(c) + x == Escape(d) + y
    ensures c == d && x == y
  {
    hide Escape;
    EscapeShape(c);
    EscapeShape(d);
    var s := Escape(c) + x;
    assert s == Escape(d) + y;
    assert s[0] == Escape(c)[0] == Escape(d)[0];
    if Escaped(c) {
      assert s[1] == EscapeCode(c) == EscapeCode(d);
      if EscapeCode(c) == 'u' {
        assert s[4] == HexDigit(c as nat / 16) == HexDigit(d as nat / 16);
        assert s[5] == HexDigit(c as nat % 16) == HexDigit(d as nat % 16);
        HexDigitInjective(c as nat / 16, d as nat / 16);
        HexDigitInjective(c as nat % 16, d as nat % 16);
      }
    }
    assert c == d;
    Drop(Escape(c), x, y);
  }

  lemma EscapeNeverQuotes(c: char)
    ensures Escape(c) != "" && Escape(c)[0] != '\"'
  {
  }

  lemma {:induction false} BodyIsPrefixFree(a: string, b: string, x: string, y: string)
    requires Body(a) + x == Body(b) + y
    ensures a == b && x == y
    decreases |a|
  {
    hide Escape;
    var s := Body(a) + x;
    if a != "" { EscapeNeverQuotes(a[0]); assert s[0] == Escape(a[0])[0]; }
    if b != "" { EscapeNeverQuotes(b[0]); assert s[0] == Escape(b[0])[0]; }
    if a == "" || b == "" {
      assert s[0] == '\"';
      assert x == s[1..];
    } else {
      assert s == Escape(a[0]) + (Body(a[1..]) + x);
      assert s == Escape(b[0]) + (Body(b[1..]) + y);
      EscapeIsPrefixFree(a[0], b[0], Body(a[1..]) + x, Body(b[1..]) + y);
      BodyIsPrefixFree(a[1..], b[1..], x, y);
      assert a == [a[0]] + a[1..] && b == [b[0]] + b[1..];
    }
  }

  lemma QuoteIsPrefixFree(a: string, b: string, x: string, y: string)
    requires Quote(a) + x == Quote(b) + y
    ensures a == b && x == y
  {
    hide Body;
    assert Quote(a) + x == "\"" + (Body(a) + x);
    assert Quote(b) + y == "\"" + (Body(b) + y);
    Drop("\"", Body(a) + x, Body(b) + y);
    BodyIsPrefixFree(a, b, x, y);
  }

  lemma OptIsPrefixFree(a: Option<string>, b: Option<string>, x: string, y: string)
    requires OptText(a) + x == OptText(b) + y
    ensures a == b && x == y
  {
    hide Body;
    var s := OptText(a) + x;
    assert s[0] == OptText(a)[0] == OptText(b)[0];
    if a.None? {
      Drop("null", x, y);
    } else {
      QuoteIsPrefixFree(a.value, b.value, x, y);
    }
  }

  lemma BoolIsPrefixFree(a: bool, b: bool, x: string, y: string)
    requires BoolText(a) + x == BoolText(b) + y
    ensures a == b && x == y
  {
    assert (BoolText(a) + x)[0] == BoolText(a)[0] == BoolText(b)[0];
    Drop(BoolText(a), x, y);
  }

  lemma {:induction false} DigitsAreInjective(m: nat, n: nat)
    requires Digits(m) == Digits(n)
    ensures m == n
    decreases m + n
  {
    var s := Digits(m);
    assert |Digits(m)| == 1 <==> m < 10;
    assert |Digits(n)| == 1 <==> n < 10;
    if m < 10 {
      assert s[0] == Digit(m) == Digit(n);
    } else {
      assert s[|s| - 1] == Digit(m % 10) == Digit(n % 10);
      assert s[..|s| - 1] == Digits(m / 10) == Digits(n / 10);
      DigitsAreInjective(m / 10, n / 10);
    }
  }

  /** A number is read up to the first character that is no digit. */
  lemma DigitsArePrefixFree(m: nat, n: nat, x: string, y: string)
    requires x != "" && !Strings.IsDigit(x[0]) && y != "" && !Strings.IsDigit(y[0])
    requires Digits(m) + x == Digits(n) + y
    ensures m == n && x == y
  {
    hide Digits;
    var a, b := Digits(m), Digits(n);
    var s := a + x;
    assert s == b + y;
    assert s[|a|] == x[0] && s[|b|] == y[0];
    assert forall i :: 0 <= i < |a| ==> s[i] == a[i];
    assert forall i :: 0 <= i < |b| ==> s[i] == b[i];
    assert |a| == |b|;
    assert a == s[..|a|] == b;
    DigitsAreInjective(m, n);
    Drop(a, x, y);
  }

  lemma IntSign(m: int)
    ensures IntText(m) != "" && (IntText(m)[0] == '-' <==> m < 0)
  {
  }

  lemma MinusText(m: int, x: string)
    requires m < 0
    ensures IntText(m) + x == "-" + (Digits(-m) + x)
  {
    hide Digits;
  }

  lemma IntIsPrefixFree(m: int, n: int, x: string, y: string)
    requires x != "" && !Strings.IsDigit(x[0]) && y != "" && !Strings.IsDigit(y[0])
    requires IntText(m) + x == IntText(n) + y
    ensures m == n && x == y
  {
    hide Digits, Strings.IsDigit;
    IntSign(m);
    IntSign(n);
    assert (IntText(m) + x)[0] == IntText(m)[0] == IntText(n)[0];
    if m < 0 {
      MinusText(m, x);
      MinusText(n, y);
      Drop("-", Digits(-m) + x, Digits(-n) + y);
      DigitsArePrefixFree(-m, -n, x, y);
    } else {
      DigitsArePrefixFree(m, n, x, y);
    }
  }

  lemma JumpTextIsInjective(a: FullJump, b: FullJump, x: string, y: string)
    requires JumpText(a, x) == JumpText(b, y)
    ensures a == b && x == y
  {
    hide BoolText, OptText, IntText;
    var a6, b6 := ",\"jumpType\":" + (OptText(a.jumpType) + ("}" + x)), ",\"jumpType\":" + (OptText(b.jumpType) + ("}" + y));
    var a5, b5 := ",\"returnMessageId\":" + (OptText(a.returnMessageId) + a6), ",\"returnMessageId\":" + (OptText(b.returnMessageId) + b6);
    var a4, b4 := ",\"flash\":" + (BoolText(a.flash) + a5), ",\"flash\":" + (BoolText(b.flash) + b5);
    var a3, b3 := ",\"offset\":" + (IntText(a.offset) + a4), ",\"offset\":" + (IntText(b.offset) + b4);
    var a2, b2 := ",\"messageId\":" + (OptText(a.messageId) + a3), ",\"messageId\":" + (OptText(b.messageId) + b3);
    Drop("{\"present\":", BoolText(a.present) + a2, BoolText(b.present) + b2);
    BoolIsPrefixFree(a.present, b.present, a2, b2);
    Drop(",\"messageId\":", OptText(a.messageId) + a3, OptText(b.messageId) + b3);
    OptIsPrefixFree(a.messageId, b.messageId, a3, b3);
    Drop(",\"offset\":", IntText(a.offset) + a4, IntText(b.offset) + b4);
    IntIsPrefixFree(a.offset, b.offset, a4, b4);
    Drop(",\"flash\":", BoolText(a.flash) + a5, BoolText(b.flash) + b5);
    BoolIsPrefixFree(a.flash, b.flash, a5, b5);
    Drop(",\"returnMessageId\":", OptText(a.returnMessageId) + a6, OptText(b.returnMessageId) + b6);
    OptIsPrefixFree(a.returnMessageId, b.returnMessageId, a6, b6);
    Drop(",\"jumpType\":", OptText(a.jumpType) + ("}" + x), OptText(b.jumpType) + ("}" + y));
    OptIsPrefixFree(a.jumpType, b.jumpType, "}" + x, "}" + y);
    Drop("}", x, y);
  }

  lemma OptJumpIsInjective(a: Option<FullJump>, b: Option<FullJump>, x: string, y: string)
    requires OptJumpText(a, x) == OptJumpText(b, y)
    ensures a == b && x == y
  {
    JumpTextOpens(a, x);
    JumpTextOpens(b, y);
    hide JumpText;
    if a.None? {
      Drop("null", x, y);
    } else {
      JumpTextIsInjective(a.value, b.value, x, y);
    }
  }

  lemma JumpTextOpens(a: Option<FullJump>, rest: string)
    ensures OptJumpText(a, rest) != "" && OptJumpText(a, rest)[0] == if a.None? then 'n' else '{'
  {
    hide BoolText, OptText, IntText;
  }

  lemma TextIsInjective(a: Request, b: Request)
    requires Text(a) == Text(b)
    ensures a == b
  {
    hide Quote, OptText, IntText, OptJumpText;
    var a5, b5 := ",\"jump\":" + OptJumpText(a.jump, "}"), ",\"jump\":" + OptJumpText(b.jump, "}");
    var a4, b4 := ",\"limit\":" + (IntText(a.limit) + a5), ",\"limit\":" + (IntText(b.limit) + b5);
    var a3, b3 := ",\"after\":" + (OptText(a.after) + a4), ",\"after\":" + (OptText(b.after) + b4);
    var a2, b2 := ",\"before\":" + (OptText(a.before) + a3), ",\"before\":" + (OptText(b.before) + b3);
    Drop("{\"channelId\":", Quote(a.channelId) + a2, Quote(b.channelId) + b2);
    QuoteIsPrefixFree(a.channelId, b.channelId, a2, b2);
    Drop(",\"before\":", OptText(a.before) + a3, OptText(b.before) + b3);
    OptIsPrefixFree(a.before, b.before, a3, b3);
    Drop(",\"after\":", OptText(a.after) + a4, OptText(b.after) + b4);
    OptIsPrefixFree(a.after, b.after, a4, b4);
    Drop(",\"limit\":", IntText(a.limit) + a5, IntText(b.limit) + b5);
    IntIsPrefixFree(a.limit, b.limit, a5, b5);
    Drop(",\"jump\":", OptJumpText(a.jump, "}"), OptJumpText(b.jump, "}"));
    OptJumpIsInjective(a.jump, b.jump, "}", "}");
  }

  /** Two calls share a key exactly if they ask for the same thing. */
  lemma KeysAgreeIffRequestsDo(a: Args, b: Args)
    ensures MakeFetchKey(a) == MakeFetchKey(b) <==> SameFetch(a, b)
  {
    NormalizedAlike(a, b);
    hide Text, Normalize, SameFetch;
    if MakeFetchKey(a) == MakeFetchKey(b) {
      TextIsInjective(Normalize(a), Normalize(b));
    }
  }

  /** The same page of the same channel is asked for, with the same jump; what is absent of a jump is
      `false`, or 0. */
  predicate SameFetch(a: Args, b: Args) {
    && a.channelId == b.channelId && a.before == b.before && a.after == b.after && a.limit == b.limit
    && match (a.jump, b.jump)
       case (None, None) => true
       case (Some(i), Some(j)) =>
         && i.messageId == j.messageId && i.returnMessageId == j.returnMessageId && i.jumpType == j.jumpType
         && (i.present == Some(true) <==> j.present == Some(true))
         && (i.flash == Some(true) <==> j.flash == Some(true))
         && (i.offset == j.offset || (IsZero(i.offset) && IsZero(j.offset)))
       case _ => false
  }

  predicate IsZero(offset: Option<int>) {
    offset.None? || offset.value == 0
  }

  lemma NormalizedAlike(a: Args, b: Args)
    ensures Normalize(a) == Normalize(b) <==> SameFetch(a, b)
  {
  }
}
