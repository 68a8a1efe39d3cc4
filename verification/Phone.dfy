/** Formatting of phone numbers by a country's pattern. */
module Phone {
  import opened Text
  import opened Wrappers

  /** `value.replace(/\D/g, '')` */
  function Digits(s: string): (d: string)
    ensures AllDigits(d)
  {
    if s == "" then "" else (if IsDigit(s[0]) then [s[0]] else "") + Digits(s[1..])
  }

  predicate AllDigits(s: string) {
    forall i :: 0 <= i < |s| ==> IsDigit(s[i])
  }

  /** The rest `f` of a pattern, filled with the digits from `k` on. A separator is kept only
      between digits. */
  function Fill(f: string, digits: string, k: nat): string
    decreases |f|
  {
    if f == "" then ""
    else if f[0] == '#' then
      if k < |digits| then [digits[k]] + Fill(f[1..], digits, k + 1) else ""
    else (if 0 < k < |digits| then [f[0]] else "") + Fill(f[1..], digits, k)
  }

  /** The empty pattern stands for none. */
  function Format(value: string, format: string): string {
    if format == "" then Digits(value) else Fill(format, Digits(value), 0)
  }

  function E164(dialCode: string, value: string): string {
    dialCode + Digits(value)
  }

  // ---------------------------------------------------------------- the code

  method FormatPhoneNumber(value: string, format: string) returns (formatted: string)
    ensures formatted == Format(value, format)
  {
    var digits := Digits(value);
    if format == "" {
      return digits;
    }
    formatted := "";
    var digitIndex := 0;
    for i := 0 to |format|
      invariant FilledTo(format, digits, i, digitIndex, formatted)
    {
      hide Fill, FilledTo;
      FilledStep(format, digits, i, digitIndex, formatted);
      var c := format[i];
      if c == '#' {
        if digitIndex < |digits| {
          formatted := formatted + [digits[digitIndex]];
          digitIndex := digitIndex + 1;
        } else {
          break;
        }
      } else {
        if digitIndex > 0 && digitIndex < |digits| {
          formatted := formatted + [c];
        }
      }
    }
    FilledAtEnd(format, digits, digitIndex, formatted);
  }

  /** The text built from the first `i` characters is what is missing of the rest. */
  ghost predicate FilledTo(format: string, digits: string, i: nat, k: nat, formatted: string) {
    i <= |format| && formatted + Fill(format[i..], digits, k) == Fill(format, digits, 0)
  }

  lemma FilledStep(format: string, digits: string, i: nat, k: nat, formatted: string)
    requires FilledTo(format, digits, i, k, formatted) && i < |format|
    ensures if format[i] == '#' then
              if k < |digits| then FilledTo(format, digits, i + 1, k + 1, formatted + [digits[k]])
              else formatted == Fill(format, digits, 0)
            else FilledTo(format, digits, i + 1, k, if 0 < k < |digits| then formatted + [format[i]] else formatted)
  {
    var c, rest := format[i], format[i + 1..];
    FillCons(c, rest, digits, k);
    assert format[i..] == [c] + rest;
    hide Fill;
    Regroup(formatted, if c != '#' then [c] else if k < |digits| then [digits[k]] else "",
            Fill(rest, digits, if c == '#' then k + 1 else k));
  }

  lemma FilledAtEnd(format: string, digits: string, k: nat, formatted: string)
    ensures FilledTo(format, digits, |format|, k, formatted) ==> formatted == Fill(format, digits, 0)
  {
    assert format[|format|..] == "";
    assert formatted + "" == formatted;
  }

  lemma FillCons(c: char, s: string, digits: string, k: nat)
    ensures Fill([c] + s, digits, k) ==
              if c == '#' then if k < |digits| then [digits[k]] + Fill(s, digits, k + 1) else ""
              else (if 0 < k < |digits| then [c] else "") + Fill(s, digits, k)
    ensures Slots([c] + s) == (if c == '#' then 1 else 0) + Slots(s)
  {
    assert ([c] + s)[1..] == s;
  }

  // ---------------------------------------------------------------- the digits

  function Slots(f: string): nat {
    if f == "" then 0 else (if f[0] == '#' then 1 else 0) + Slots(f[1..])
  }

  /** No digit among the separators that can be kept: those after the first slot. */
  predicate KeepsNoDigits(f: string, k: nat)
    decreases |f|
  {
    if f == "" then true
    else if f[0] == '#' then KeepsNoDigits(f[1..], k + 1)
    else (k == 0 || !IsDigit(f[0])) && KeepsNoDigits(f[1..], k)
  }

  lemma DigitsOfCons(c: char, s: string)
    ensures Digits([c] + s) == (if IsDigit(c) then [c] else "") + Digits(s)
  {
    assert ([c] + s)[1..] == s;
  }

  lemma {:induction false} DigitsOfDigits(d: string)
    requires AllDigits(d)
    ensures Digits(d) == d
  {
    if d != "" {
      DigitsOfDigits(d[1..]);
    }
  }

  lemma SliceCons(s: string, k: nat, m: nat)
    requires k < m <= |s|
    ensures [s[k]] + s[k + 1..m] == s[k..m]
  {
  }

  /** How many digits of the pattern are kept when it is filled with `m` digits from the `k`-th on. */
  function KeptDigits(f: string, k: nat, m: nat): nat
    decreases |f|
  {
    if f == "" then 0
    else if f[0] == '#' then if k < m then KeptDigits(f[1..], k + 1, m) else 0
    else (if 0 < k < m && IsDigit(f[0]) then 1 else 0) + KeptDigits(f[1..], k, m)
  }

  /** What a separator contributes. */
  lemma FillSeparator(f: string, digits: string, k: nat)
    requires f != "" && f[0] != '#'
    ensures Digits(Fill(f, digits, k)) ==
              (if 0 < k < |digits| && IsDigit(f[0]) then [f[0]] else "") + Digits(Fill(f[1..], digits, k))
  {
    DigitsOfCons(f[0], Fill(f[1..], digits, k));
    assert "" + Fill(f[1..], digits, k) == Fill(f[1..], digits, k);
  }

  lemma {:induction false} DigitsOfFill(f: string, digits: string, k: nat)
    requires AllDigits(digits) && k <= |digits| && KeptDigits(f, k, |digits|) == 0
    ensures Digits(Fill(f, digits, k)) == digits[k..Min(|digits|, k + Slots(f))]
    decreases |f|
  {
    hide Digits;
    if f == "" || (f[0] == '#' && k == |digits|) {
      DigitsOfDigits("");
    } else if f[0] == '#' {
      DigitsOfFill(f[1..], digits, k + 1);
      DigitsOfCons(digits[k], Fill(f[1..], digits, k + 1));
      SliceCons(digits, k, Min(|digits|, k + Slots(f)));
    } else {
      DigitsOfFill(f[1..], digits, k);
      FillSeparator(f, digits, k);
    }
  }

  lemma {:induction false} CountOfFill(f: string, digits: string, k: nat)
    requires AllDigits(digits) && k <= |digits|
    ensures |Digits(Fill(f, digits, k))| == Min(|digits| - k, Slots(f)) + KeptDigits(f, k, |digits|)
    decreases |f|
  {
    if f == "" || (f[0] == '#' && k == |digits|) {
      assert Fill(f, digits, k) == "";
    } else if f[0] == '#' {
      CountOfFill(f[1..], digits, k + 1);
      DigitsOfCons(digits[k], Fill(f[1..], digits, k + 1));
    } else {
      CountOfFill(f[1..], digits, k);
      FillSeparator(f, digits, k);
    }
  }

  /** A pattern keeps no digits of its own exactly if it keeps none of them for a long number. */
  lemma {:induction false} KeepsNoDigitsIff(f: string, k: nat, m: nat)
    ensures KeepsNoDigits(f, k) ==> KeptDigits(f, k, m) == 0
    ensures k + Slots(f) < m && KeptDigits(f, k, m) == 0 ==> KeepsNoDigits(f, k)
    decreases |f|
  {
    if f != "" {
      KeepsNoDigitsIff(f[1..], if f[0] == '#' then k + 1 else k, m);
    }
  }

  /** The digits of `value` that the pattern has room for. */
  function Fitting(value: string, format: string): string {
    if format == "" then Digits(value) else Digits(value)[..Min(|Digits(value)|, Slots(format))]
  }

  function Zeros(n: nat): (s: string)
    ensures |s| == n && AllDigits(s)
  {
    Repeat('0', n)
  }

  function Repeat(c: char, n: nat): (s: string)
    ensures |s| == n && forall i :: 0 <= i < n ==> s[i] == c
  {
    if n == 0 then "" else [c] + Repeat(c, n - 1)
  }

  /** Formatting keeps the digits that fit, in order, and no others. */
  lemma FormatKeepsDigits(value: string, format: string)
    requires KeepsNoDigits(format, 0)
    ensures Digits(Format(value, format)) == Fitting(value, format)
  {
    if format == "" {
      DigitsOfDigits(Digits(value));
    } else {
      KeepsNoDigitsIff(format, 0, |Digits(value)|);
      DigitsOfFill(format, Digits(value), 0);
    }
  }

  /** It does so for all numbers exactly if the pattern has no digit after its first slot. */
  lemma FormatKeepsDigitsIff(format: string)
    ensures (forall value :: Digits(Format(value, format)) == Fitting(value, format)) <==> KeepsNoDigits(format, 0)
  {
    if KeepsNoDigits(format, 0) {
      forall value ensures Digits(Format(value, format)) == Fitting(value, format) {
        FormatKeepsDigits(value, format);
      }
    } else {
      var value := Zeros(Slots(format) + 1);
      DigitsOfDigits(value);
      KeepsNoDigitsIff(format, 0, |value|);
      CountOfFill(format, value, 0);
      assert |Digits(Format(value, format))| > |Fitting(value, format)|;
    }
  }

  /** A number that fits is sent to the server the same from the text typed and from the text shown
      exactly if no digit of the pattern is kept; one that does not fit is not, unless the pattern
      has just as many digits of its own to make up for those lost. */
  lemma E164Iff(dialCode: string, value: string, format: string)
    ensures format == "" ==> E164(dialCode, Format(value, format)) == E164(dialCode, value)
    ensures format != "" && |Digits(value)| <= Slots(format) ==>
              (E164(dialCode, Format(value, format)) == E164(dialCode, value) <==> KeptDigits(format, 0, |Digits(value)|) == 0)
    ensures format != "" && |Digits(value)| != Slots(format) + KeptDigits(format, 0, |Digits(value)|) > Slots(format) ==>
              E164(dialCode, Format(value, format)) != E164(dialCode, value)
    ensures format != "" && |Digits(value)| > Slots(format) && KeepsNoDigits(format, 0) ==>
              E164(dialCode, Format(value, format)) != E164(dialCode, value)
  {
    SameAfterPrefix(dialCode, Digits(Format(value, format)), Digits(value));
    if format == "" {
      DigitsOfDigits(Digits(value));
    } else {
      if |Digits(value)| <= Slots(format) {
        FittingShown(value, format);
      }
      CountOfFill(format, Digits(value), 0);
      KeepsNoDigitsIff(format, 0, |Digits(value)|);
      hide *;
    }
  }

  lemma FittingShown(value: string, format: string)
    requires format != "" && |Digits(value)| <= Slots(format)
    ensures Digits(Format(value, format)) == Digits(value) <==> KeptDigits(format, 0, |Digits(value)|) == 0
  {
    hide Fill, Digits, Slots, KeptDigits, IsDigit, AllDigits;
    var d := Digits(value);
    CountOfFill(format, d, 0);
    SameAfterPrefix("", "", d);
    if KeptDigits(format, 0, |d|) == 0 {
      DigitsOfFill(format, d, 0);
    }
  }

  lemma SameAfterPrefix(p: string, a: string, b: string)
    ensures p + a == p + b <==> a == b
    ensures b[0..|b|] == b && |p + a| == |p| + |a|
  {
    assert (p + a)[|p|..] == a && (p + b)[|p|..] == b;
  }

  // ---------------------------------------------------------------- typing on

  /** The digits that do not fit have no effect. */
  lemma {:induction false} FillIgnoresExtra(f: string, digits: string, k: nat)
    requires f == "" || f[|f| - 1] == '#'
    ensures Fill(f, digits[..Min(|digits|, k + Slots(f))], k) == Fill(f, digits, k)
    decreases |f|
  {
    if f != "" {
      LastSlot(f);
      if f[0] == '#' {
        FillIgnoresExtra(f[1..], digits, k + 1);
      } else {
        FillIgnoresExtra(f[1..], digits, k);
      }
    }
  }

  lemma {:induction false} LastSlot(f: string)
    requires f != "" && f[|f| - 1] == '#'
    ensures Slots(f) > 0
  {
    if |f| > 1 {
      LastSlot(f[1..]);
    }
  }

  lemma {:induction false} NoSlotNoText(f: string, digits: string)
    requires Slots(f) == 0
    ensures Fill(f, digits, 0) == ""
  {
    if f != "" {
      NoSlotNoText(f[1..], digits);
    }
  }

  /** The length of the pattern up to and with its last slot. */
  function HeadLength(f: string): (n: nat)
    requires Slots(f) > 0
    ensures 0 < n <= |f| && f[n - 1] == '#'
    ensures Slots(f[n..]) == 0
  {
    if Slots(f[1..]) > 0 then
      assert f[1..][HeadLength(f[1..])..] == f[1 + HeadLength(f[1..])..];
      1 + HeadLength(f[1..])
    else 1
  }

  function Head(f: string): (h: string)
    requires Slots(f) > 0
    ensures h != "" && h[|h| - 1] == '#'
  {
    f[..HeadLength(f)]
  }

  /** What follows the last slot. */
  function Tail(f: string): string
    requires Slots(f) > 0
  {
    f[HeadLength(f)..]
  }

  lemma {:induction false} FillTail(f: string, digits: string, k: nat)
    requires Slots(f) == 0 && k > 0
    ensures Fill(f, digits, k) == if k < |digits| then f else ""
  {
    if f != "" {
      FillTail(f[1..], digits, k);
    }
  }

  lemma HeadCons(f: string)
    requires Slots(f) > 0
    ensures if Slots(f[1..]) > 0 then Head(f) == [f[0]] + Head(f[1..]) && Tail(f) == Tail(f[1..])
            else f[0] == '#' && Head(f) == ['#'] && Tail(f) == f[1..]
  {
    var n := if Slots(f[1..]) > 0 then HeadLength(f[1..]) else 0;
    assert HeadLength(f) == 1 + n;
    hide HeadLength;
    CutCons(f, n);
  }

  lemma CutCons(f: string, n: nat)
    requires n < |f|
    ensures f[..1 + n] == [f[0]] + f[1..][..n] && f[1 + n..] == f[1..][n..]
  {
  }

  lemma FillLastSlot(tail: string, digits: string, k: nat)
    requires Slots(tail) == 0
    ensures Fill(['#'] + tail, digits, k) == Fill(['#'], digits, k) + if |digits| > k + 1 then tail else ""
    ensures Slots(['#'] + tail) == Slots(['#']) == 1
  {
    FillTail(tail, digits, k + 1);
    FillCons('#', tail, digits, k);
    FillCons('#', "", digits, k);
    assert ['#'] + "" == ['#'];
  }

  /** The separators after the last slot are kept exactly if there are digits left over. */
  lemma {:induction false} FillSplit(f: string, digits: string, k: nat)
    requires Slots(f) > 0
    ensures Slots(Head(f)) == Slots(f)
    ensures Fill(f, digits, k) == Fill(Head(f), digits, k) + if |digits| > k + Slots(f) then Tail(f) else ""
    decreases |f|
  {
    var rest := f[1..];
    HeadCons(f);
    if Slots(rest) == 0 {
      FillLastSlot(rest, digits, k);
      assert f == ['#'] + rest;
    } else {
      FillSplit(rest, digits, if f[0] == '#' then k + 1 else k);
      SplitCons(f[0], rest, digits, k);
      assert f == [f[0]] + rest;
    }
  }

  lemma SplitCons(c: char, rest: string, digits: string, k: nat)
    requires Slots(rest) > 0 && Slots(Head(rest)) == Slots(rest)
    requires var n := if c == '#' then k + 1 else k;
             Fill(rest, digits, n) == Fill(Head(rest), digits, n) + if |digits| > n + Slots(rest) then Tail(rest) else ""
    ensures Slots([c] + Head(rest)) == Slots([c] + rest)
    ensures Fill([c] + rest, digits, k) ==
              Fill([c] + Head(rest), digits, k) + if |digits| > k + Slots([c] + rest) then Tail(rest) else ""
  {
    FillCons(c, Head(rest), digits, k);
    FillCons(c, rest, digits, k);
    hide *;
    if c == '#' && k < |digits| {
      Regroup([digits[k]], Fill(Head(rest), digits, k + 1), if |digits| > k + 1 + Slots(rest) then Tail(rest) else "");
    } else if c != '#' {
      Regroup(if 0 < k < |digits| then [c] else "", Fill(Head(rest), digits, k),
              if |digits| > k + Slots(rest) then Tail(rest) else "");
    }
  }

  /** Once the digits are used up, or if the pattern ends in a slot, the last character is a digit. */
  lemma {:induction false} LastIsDigit(f: string, digits: string, k: nat)
    requires AllDigits(digits)
    requires f == "" || f[|f| - 1] == '#'
    ensures var r := Fill(f, digits, k);
            && EndsInDigit(r)
            && (k < |digits| && f != "" ==> r != "")
    decreases |f|
  {
    if f != "" {
      if f[0] == '#' {
        LastIsDigit(f[1..], digits, k + 1);
      } else {
        LastIsDigit(f[1..], digits, k);
      }
    }
  }

  predicate EndsInDigit(s: string) {
    s == "" || IsDigit(s[|s| - 1])
  }

  /** How what is shown of one number ends. */
  lemma EndOfShown(value: string, format: string)
    requires Slots(format) > 0
    ensures |Digits(value)| <= Slots(format) || Tail(format) == "" ==> EndsInDigit(Format(value, format))
    ensures |Digits(value)| > Slots(format) && Tail(format) != "" ==>
              (EndsInDigit(Format(value, format)) <==> IsDigit(format[|format| - 1]))
  {
    var d := Digits(value);
    FillSplit(format, d, 0);
    LastIsDigit(Head(format), d, 0);
    LastOfTail(format);
    hide Fill, Digits, Slots, Head, Tail, IsDigit;
    var shown, tail := Fill(Head(format), d, 0), Tail(format);
    assert shown + "" == shown;
    assert tail != "" ==> (shown + tail)[|shown + tail| - 1] == tail[|tail| - 1];
  }

  lemma LastOfTail(format: string)
    requires Slots(format) > 0
    ensures Tail(format) != "" ==> format != "" && Tail(format)[|Tail(format)| - 1] == format[|format| - 1]
  {
    hide HeadLength;
  }

  /** No separator is left at the end of what is shown, for all numbers, exactly if the pattern ends
      in a slot or a digit of its own (or has no slot). */
  lemma NoDanglingSeparatorIff(format: string)
    ensures (forall value :: EndsInDigit(Format(value, format))) <==>
              Slots(format) == 0 || Tail(format) == "" || IsDigit(format[|format| - 1])
  {
    var long := Zeros(Slots(format) + 1);
    DigitsOfDigits(long);
    forall value
      ensures Slots(format) == 0 ==> EndsInDigit(Format(value, format))
      ensures Slots(format) > 0 && (|Digits(value)| <= Slots(format) || Tail(format) == "") ==> EndsInDigit(Format(value, format))
      ensures Slots(format) > 0 && |Digits(value)| > Slots(format) && Tail(format) != "" ==>
                (EndsInDigit(Format(value, format)) <==> IsDigit(format[|format| - 1]))
    {
      if Slots(format) == 0 {
        NoSlotNoText(format, Digits(value));
      } else {
        EndOfShown(value, format);
      }
    }
    hide Format, Digits, Slots, Tail, EndsInDigit, IsDigit;
    assert Slots(format) > 0 && Tail(format) != "" ==> (EndsInDigit(Format(long, format)) <==> IsDigit(format[|format| - 1]));
  }

  predicate ShownStable(value: string, format: string) {
    Format(Format(value, format), format) == Format(value, format)
  }

  lemma {:induction false} DigitsOfConcat(a: string, b: string)
    ensures Digits(a + b) == Digits(a) + Digits(b)
  {
    if a == "" {
      assert a + b == b;
    } else {
      DigitsOfConcat(a[1..], b);
      DigitsOfCons(a[0], a[1..]);
      DigitsOfCons(a[0], a[1..] + b);
      hide Digits;
      Regroup([a[0]], a[1..], b);
      Regroup(if IsDigit(a[0]) then [a[0]] else "", Digits(a[1..]), Digits(b));
      assert [a[0]] + a[1..] == a;
    }
  }

  /** What is shown and the digits in it, with no digit between the slots. */
  lemma ShownWithPlainHead(value: string, f: string)
    requires Slots(f) > 0 && KeepsNoDigits(Head(f), 0)
    ensures var d, n := Digits(value), Slots(f);
            var fits, extra := d[..Min(|d|, n)], if |d| > n then Tail(f) else "";
            && Format(value, f) == Fill(Head(f), fits, 0) + extra
            && Digits(Format(value, f)) == fits + Digits(extra)
  {
    var d, h, n := Digits(value), Head(f), Slots(f);
    FillSplit(f, d, 0);
    KeepsNoDigitsIff(h, 0, |d|);
    DigitsOfFill(h, d, 0);
    FillIgnoresExtra(h, d, 0);
    hide *;
    DigitsOfConcat(Fill(h, d, 0), if |d| > n then Tail(f) else "");
  }

  /** With no digit between the slots, what is shown is stable exactly if the digits do not run
      over, or what follows the last slot is nothing or has a digit to keep it shown. */
  lemma StableWithPlainHead(value: string, f: string)
    requires Slots(f) > 0 && KeepsNoDigits(Head(f), 0)
    ensures ShownStable(value, f) <==> |Digits(value)| <= Slots(f) || Tail(f) == "" || Digits(Tail(f)) != ""
  {
    var d, n := Digits(value), Slots(f);
    var fits, extra := d[..Min(|d|, n)], if |d| > n then Tail(f) else "";
    ShownWithPlainHead(value, f);
    ShownWithPlainHead(Format(value, f), f);
    assert Digits("") == "";
    hide Fill, Slots, Head, Tail, Digits, Format, KeepsNoDigits;
    var again := Digits(Format(value, f));
    assert again[..Min(|again|, n)] == fits;
    SameAfterPrefix(Fill(Head(f), fits, 0), extra, if |again| > n then Tail(f) else "");
  }

  /** The first digit between the slots. */
  function FirstKept(f: string, k: nat): (c: char)
    requires !KeepsNoDigits(f, k)
    ensures IsDigit(c)
    decreases |f|
  {
    if f[0] == '#' then FirstKept(f[1..], k + 1)
    else if k > 0 && IsDigit(f[0]) then f[0]
    else FirstKept(f[1..], k)
  }

  /** It is among the digits that fill the slots when the text is formatted again. */
  lemma {:induction false} FirstKeptMoves(f: string, digits: string, k: nat) returns (p: nat)
    requires AllDigits(digits) && k + Slots(f) == |digits| && f != "" && f[|f| - 1] == '#' && !KeepsNoDigits(f, k)
    ensures p < Slots(f) && p < |Digits(Fill(f, digits, k))| && Digits(Fill(f, digits, k))[p] == FirstKept(f, k)
    decreases |f|
  {
    LastSlot(f);
    LastOfRest(f);
    KeptInRest(f, digits, k);
    hide *;
    var rest := f[1..];
    if f[0] == '#' {
      p := FirstKeptMoves(rest, digits, k + 1);
      MovesPastSlot(f, digits, k, p);
      p := p + 1;
    } else if k > 0 && IsDigit(f[0]) {
      p := 0;
    } else {
      p := FirstKeptMoves(rest, digits, k);
    }
  }

  /** What the rest of a pattern has to do with the whole. */
  lemma KeptInRest(f: string, digits: string, k: nat)
    requires AllDigits(digits) && f != "" && !KeepsNoDigits(f, k) && k + Slots(f) == |digits| && Slots(f) > 0
    ensures var rest := f[1..];
            if f[0] == '#' then
              && Slots(f) == 1 + Slots(rest) && FirstKept(f, k) == FirstKept(rest, k + 1) && !KeepsNoDigits(rest, k + 1) && rest != ""
              && k < |digits| && IsDigit(digits[k])
            else if k > 0 && IsDigit(f[0]) then
              |Digits(Fill(f, digits, k))| > 0 && Digits(Fill(f, digits, k))[0] == f[0] == FirstKept(f, k)
            else
              && Slots(f) == Slots(rest) && FirstKept(f, k) == FirstKept(rest, k) && !KeepsNoDigits(rest, k) && rest != ""
              && Digits(Fill(f, digits, k)) == Digits(Fill(rest, digits, k))
  {
    if f[0] != '#' {
      FillSeparator(f, digits, k);
      hide Fill, Digits;
      assert "" + Digits(Fill(f[1..], digits, k)) == Digits(Fill(f[1..], digits, k));
    }
  }

  lemma LastOfRest(f: string)
    requires f != "" && f[|f| - 1] == '#'
    ensures |f| > 1 ==> f[1..] != "" && f[1..][|f| - 2] == '#'
  {
  }

  lemma MovesPastSlot(f: string, digits: string, k: nat, p: nat)
    requires f != "" && f[0] == '#' && k < |digits| && IsDigit(digits[k]) && p < |Digits(Fill(f[1..], digits, k + 1))|
    ensures p + 1 < |Digits(Fill(f, digits, k))| && Digits(Fill(f, digits, k))[p + 1] == Digits(Fill(f[1..], digits, k + 1))[p]
  {
    DigitsOfCons(digits[k], Fill(f[1..], digits, k + 1));
  }

  /** Up to the last slot, what is shown tells the digits in the slots apart. */
  lemma {:induction false} FillDiffers(f: string, a: string, b: string, k: nat, p: nat)
    requires f != "" && f[|f| - 1] == '#' && k + Slots(f) <= |a| && k + Slots(f) <= |b|
    requires k <= p < k + Slots(f) && a[p] != b[p]
    ensures Fill(f, a, k) != Fill(f, b, k)
    decreases |f|
  {
    var rest := f[1..];
    if f[0] == '#' {
      assert Fill(f, a, k)[0] == a[k] && Fill(f, b, k)[0] == b[k];
      if p > k {
        FillDiffers(rest, a, b, k + 1, p);
        assert Fill(f, a, k)[1..] == Fill(rest, a, k + 1) && Fill(f, b, k)[1..] == Fill(rest, b, k + 1);
      }
    } else {
      FillDiffers(rest, a, b, k, p);
      var s := if k > 0 then [f[0]] else "";
      assert (s + Fill(rest, a, k))[|s|..] == Fill(rest, a, k) && (s + Fill(rest, b, k))[|s|..] == Fill(rest, b, k);
      assert Fill(f, a, k) == s + Fill(rest, a, k) && Fill(f, b, k) == s + Fill(rest, b, k);
    }
  }

  /** A digit between the slots moves into a slot when the text is formatted again. */
  lemma DigitInHeadMoves(f: string) returns (value: string)
    requires Slots(f) > 0 && !KeepsNoDigits(Head(f), 0)
    ensures !ShownStable(value, f)
  {
    var h, n := Head(f), Slots(f);
    var c := FirstKept(h, 0);
    value := Repeat(if c == '0' then '1' else '0', n);
    assert AllDigits(value);
    DigitsOfDigits(value);
    FillSplit(f, value, 0);
    var shown := Format(value, f);
    var again := Digits(shown);
    assert shown == Fill(h, value, 0);
    var p := FirstKeptMoves(h, value, 0);
    CountOfFill(h, value, 0);
    KeptInHead(h, 0);
    FillSplit(f, again, 0);
    FillLength(h, value, again, 0);
    FillDiffers(h, value, again, 0, p);
    assert |Fill(h, again, 0) + Tail(f)| == |Fill(h, again, 0)| + |Tail(f)|;
    assert Tail(f) == "" ==> Fill(h, again, 0) + Tail(f) == Fill(h, again, 0);
  }

  lemma {:induction false} KeptInHead(f: string, k: nat)
    requires f != "" && f[|f| - 1] == '#' && !KeepsNoDigits(f, k)
    ensures KeptDigits(f, k, k + Slots(f)) > 0
    decreases |f|
  {
    LastSlot(f);
    if f[0] == '#' {
      assert f[1..] != "" ==> f[1..][|f| - 2] == '#';
      KeptInHead(f[1..], k + 1);
    } else if k == 0 || !IsDigit(f[0]) {
      KeptInHead(f[1..], k);
    }
  }

  lemma {:induction false} FillLength(f: string, a: string, b: string, k: nat)
    requires (f == "" || f[|f| - 1] == '#') && k + Slots(f) <= |a| && k + Slots(f) <= |b|
    ensures |Fill(f, a, k)| == |Fill(f, b, k)|
    decreases |f|
  {
    if f != "" {
      LastSlot(f);
      FillLength(f[1..], a, b, if f[0] == '#' then k + 1 else k);
    }
  }

  /** What is shown does not change when it is formatted again, for all numbers, exactly if the
      pattern has no slot; or no digit between its slots, and after the last one either nothing or
      a digit. */
  lemma StableIff(format: string)
    ensures (forall value :: ShownStable(value, format)) <==>
              || Slots(format) == 0
              || (KeepsNoDigits(Head(format), 0) && (Tail(format) == "" || Digits(Tail(format)) != ""))
  {
    if Slots(format) == 0 {
      forall value ensures ShownStable(value, format) {
        NoSlotNoText(format, Digits(value));
        NoSlotNoText(format, Digits(Format(value, format)));
        DigitsOfDigits(Digits(value));
      }
    } else if KeepsNoDigits(Head(format), 0) {
      forall value ensures ShownStable(value, format) <==>
          |Digits(value)| <= Slots(format) || Tail(format) == "" || Digits(Tail(format)) != "" {
        StableWithPlainHead(value, format);
      }
      var long := Zeros(Slots(format) + 1);
      DigitsOfDigits(long);
      assert |Digits(long)| > Slots(format);
    } else {
      var value := DigitInHeadMoves(format);
    }
  }

  // ---------------------------------------------------------------- the country table

  /** The patterns of the country table. */
  const PATTERNS: seq<string> := [
    "(###) ###-####", "### ### ####", "## ### ####", "## ########", "### ## ## ##",
    "# ## ## ## ##", "### ### ###", "## ### ## ##", "### ######", "#### ### ####",
    "## ## ## ##", "### ## ###", "### ########", "## ####-####", "(##) #####-####",
    "# #### ####", "### #######", "##-### ####", "#### ### ###", "###-###-####",
    "#### ####", "##-####-####", "### #### ####", "(###) ### ## ##", "##### #####",
    "(###) ###-##-##", "####-######", "##-###-####"
  ]

  /** Slots and separators only, and a slot at the end. */
  predicate WellFormed(f: string) {
    && (forall i :: 0 <= i < |f| ==> !IsDigit(f[i]))
    && f != "" && f[|f| - 1] == '#'
  }

  lemma {:induction false} WellFormedKeepsNoDigits(f: string, k: nat)
    requires forall i :: 0 <= i < |f| ==> !IsDigit(f[i])
    ensures KeepsNoDigits(f, k)
    decreases |f|
  {
    if f != "" {
      WellFormedKeepsNoDigits(f[1..], if f[0] == '#' then k + 1 else k);
    }
  }

  lemma WellFormed1()
    ensures WellFormed("(###) ###-####")
    ensures WellFormed("### ### ####")
    ensures WellFormed("## ### ####")
    ensures WellFormed("## ########")
  {
  }

  lemma WellFormed2()
    ensures WellFormed("### ## ## ##")
    ensures WellFormed("# ## ## ## ##")
    ensures WellFormed("### ### ###")
    ensures WellFormed("## ### ## ##")
  {
  }

  lemma WellFormed3()
    ensures WellFormed("### ######")
    ensures WellFormed("#### ### ####")
    ensures WellFormed("## ## ## ##")
    ensures WellFormed("### ## ###")
  {
  }

  lemma WellFormed4()
    ensures WellFormed("### ########")
    ensures WellFormed("## ####-####")
    ensures WellFormed("(##) #####-####")
    ensures WellFormed("# #### ####")
  {
  }

  lemma WellFormed5()
    ensures WellFormed("### #######")
    ensures WellFormed("##-### ####")
    ensures WellFormed("#### ### ###")
    ensures WellFormed("###-###-####")
  {
  }

  lemma WellFormed6()
    ensures WellFormed("#### ####")
    ensures WellFormed("##-####-####")
    ensures WellFormed("### #### ####")
    ensures WellFormed("(###) ### ## ##")
  {
  }

  lemma WellFormed7()
    ensures WellFormed("##### #####")
    ensures WellFormed("(###) ###-##-##")
    ensures WellFormed("####-######")
    ensures WellFormed("##-###-####")
  {
  }

  lemma PatternsAreWellFormed(i: nat)
    requires i < |PATTERNS|
    ensures WellFormed(PATTERNS[i])
  {
    hide WellFormed;
    WellFormed1(); WellFormed2(); WellFormed3(); WellFormed4(); WellFormed5(); WellFormed6(); WellFormed7();
  }

  /** So with every pattern of the table these laws hold for all numbers. */
  lemma TableObeysLaws(i: nat, value: string)
    requires i < |PATTERNS|
    ensures var f := PATTERNS[i];
            && Digits(Format(value, f)) == Fitting(value, f)
            && ShownStable(value, f)
            && EndsInDigit(Format(value, f))
  {
    hide PATTERNS;
    var f := PATTERNS[i];
    PatternsAreWellFormed(i);
    HeadIsAll(f);
    WellFormedKeepsNoDigits(f, 0);
    FormatKeepsDigits(value, f);
    StableWithPlainHead(value, f);
    LastIsDigit(f, Digits(value), 0);
  }

  lemma {:induction false} HeadIsAll(f: string)
    requires f != "" && f[|f| - 1] == '#'
    ensures Slots(f) > 0 && Head(f) == f && Tail(f) == ""
  {
    LastSlot(f);
    if |f| > 1 {
      HeadIsAll(f[1..]);
    }
    assert HeadLength(f) == |f|;
  }

  // ---------------------------------------------------------------- the number sent

  /** The dial code comes first and the digits of what was typed after it, and nothing else. */
  lemma E164IsCodeThenDigits(dialCode: string, value: string)
    ensures var n := E164(dialCode, value);
            n[..|dialCode|] == dialCode && n[|dialCode|..] == Digits(value)
  {
  }

  /** Where the `k`-th character of `value` that is a digit stands. */
  function DigitsBefore(value: string, k: nat): nat
    requires k <= |value|
  {
    |Digits(value[..k])|
  }

  /** The digits of a text are all its digits, in order. */
  lemma {:induction false} DigitsAreAllInOrder(value: string, k: nat)
    requires k <= |value|
    ensures Digits(value[..k]) <= Digits(value)
    ensures k < |value| && IsDigit(value[k]) ==> DigitsBefore(value, k) < |Digits(value)| && Digits(value)[DigitsBefore(value, k)] == value[k]
  {
    assert value == value[..k] + value[k..];
    DigitsOfConcat(value[..k], value[k..]);
    if k < |value| {
      DigitsOfCons(value[k], value[k + 1..]);
      assert value[k..] == [value[k]] + value[k + 1..];
    }
  }

  lemma {:induction false} DigitsAreCounted(value: string, c: char)
    ensures multiset(Digits(value))[c] == if IsDigit(c) then multiset(value)[c] else 0
  {
    if value != "" {
      DigitsAreCounted(value[1..], c);
      assert value == [value[0]] + value[1..];
    }
  }
}
