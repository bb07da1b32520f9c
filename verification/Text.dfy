/** Strings as the orchestrator and the selectors use them: stripping, ASCII case
    folding, decimal digits, and the first run of digits in a text. */
module Text {

  datatype Option<+T> = None | Some(value: T)

  datatype Result<+T> = Ok(value: T) | Err(error: string) {
    predicate IsFailure() {
      Err?
    }

    function PropagateFailure<U>(): Result<U>
      requires IsFailure()
    {
      Err(error)
    }

    function Extract(): T
      requires !IsFailure()
    {
      value
    }
  }

  /** The characters that Python's `str.strip` removes. */
  predicate IsSpace(c: char) {
    || '\U{0009}' <= c <= '\U{000D}'
    || '\U{001C}' <= c <= '\U{0020}'
    || c == '\U{0085}' || c == '\U{00A0}' || c == '\U{1680}'
    || '\U{2000}' <= c <= '\U{200A}'
    || c == '\U{2028}' || c == '\U{2029}' || c == '\U{202F}' || c == '\U{205F}' || c == '\U{3000}'
  }

  /** No white space at either end. */
  predicate Stripped(s: string) {
    s != "" ==> !IsSpace(s[0]) && !IsSpace(s[|s| - 1])
  }

  function LStrip(s: string): (r: string)
    ensures |r| <= |s| && r == s[|s| - |r|..]
    ensures r != "" ==> !IsSpace(r[0])
    ensures forall i :: 0 <= i < |s| - |r| ==> IsSpace(s[i])
  {
    if s != "" && IsSpace(s[0]) then LStrip(s[1..]) else s
  }

  function RStrip(s: string): (r: string)
    ensures r <= s
    ensures r != "" ==> !IsSpace(r[|r| - 1])
    ensures forall i :: |r| <= i < |s| ==> IsSpace(s[i])
  {
    if s != "" && IsSpace(s[|s| - 1]) then RStrip(s[..|s| - 1]) else s
  }

  function Strip(s: string): (r: string)
    ensures Stripped(r) && |r| <= |s|
  {
    RStrip(LStrip(s))
  }

  /** Stripping takes white space, and only white space, from both ends. */
  lemma StripTakesSpace(s: string) returns (front: string, back: string)
    ensures s == front + Strip(s) + back
    ensures forall i :: 0 <= i < |front| ==> IsSpace(front[i])
    ensures forall i :: 0 <= i < |back| ==> IsSpace(back[i])
  {
    hide IsSpace;
    var left := LStrip(s);
    var kept := RStrip(left);
    assert Strip(s) == kept by { hide LStrip, RStrip; }
    hide LStrip, RStrip, Strip;
    front, back := s[..|s| - |left|], left[|kept|..];
    assert s == front + left && left == kept + back;
  }

  predicate Blank(s: string) {
    Strip(s) == ""
  }

  /** A text with a printing character is not blank. */
  lemma PrintingIsNotBlank(s: string, i: nat)
    requires i < |s| && !IsSpace(s[i])
    ensures !Blank(s)
  {
    var front := LStrip(s);
    assert front != "";
    assert RStrip(front) != "";
  }

  /** A stripped text is not changed by stripping it again. */
  lemma StripOfStripped(s: string)
    requires Stripped(s)
    ensures LStrip(s) == s && RStrip(s) == s && Strip(s) == s
  {
  }

  /** The last place of a character before an end, or -1. */
  function RFind(c: char, s: string, end: nat): (i: int)
    requires end <= |s|
    ensures -1 <= i < end
    ensures i >= 0 ==> s[i] == c
    ensures forall j :: i < j < end ==> s[j] != c
  {
    if end == 0 then -1 else if s[end - 1] == c then end - 1 else RFind(c, s, end - 1)
  }

  function LowerChar(c: char): char {
    if 'A' <= c <= 'Z' then ((c as int) + 32) as char else c
  }

  /** ASCII lower case. */
  function Lower(s: string): (r: string)
    ensures |r| == |s| && forall i :: 0 <= i < |s| ==> r[i] == LowerChar(s[i])
  {
    seq(|s|, i requires 0 <= i < |s| => LowerChar(s[i]))
  }

  lemma LowerOfConcat(a: string, b: string)
    ensures Lower(a + b) == Lower(a) + Lower(b)
  {
  }

  predicate IsDigit(c: char) {
    '0' <= c <= '9'
  }

  predicate AllDigits(s: string) {
    forall i :: 0 <= i < |s| ==> IsDigit(s[i])
  }

  predicate NoDigits(s: string) {
    forall i :: 0 <= i < |s| ==> !IsDigit(s[i])
  }

  function DigitChar(d: nat): (c: char)
    requires d < 10
    ensures IsDigit(c)
  {
    (d + ('0' as int)) as char
  }

  /** The decimal text of a number, as `str` prints it. */
  function Digits(n: nat): (s: string)
    ensures s != "" && AllDigits(s) && (s[0] == '0' ==> n == 0 && s == "0")
  {
    if n < 10 then [DigitChar(n)] else Digits(n / 10) + [DigitChar(n % 10)]
  }

  /** The number a text of digits denotes, as `int` reads it. */
  function ValueOf(s: string): nat
    requires AllDigits(s)
  {
    if s == "" then 0 else 10 * ValueOf(s[..|s| - 1]) + (s[|s| - 1] as int - '0' as int)
  }

  /** Reading back the decimal text of a number gives the number. */
  lemma {:induction false} ValueOfDigits(n: nat)
    ensures ValueOf(Digits(n)) == n
  {
    if n < 10 {
      assert Digits(n)[..0] == "";
    } else {
      ValueOfDigits(n / 10);
      var s := Digits(n);
      assert s[..|s| - 1] == Digits(n / 10);
    }
  }

  lemma DigitsInjective(a: nat, b: nat)
    requires Digits(a) == Digits(b)
    ensures a == b
  {
    ValueOfDigits(a);
    ValueOfDigits(b);
  }

  /** Digits framed by one prefix and one suffix still determine the number. */
  lemma FramedDigitsInjective(prefix: string, a: nat, b: nat, suffix: string)
    requires prefix + Digits(a) + suffix == prefix + Digits(b) + suffix
    ensures a == b
  {
    var s, t := prefix + Digits(a) + suffix, prefix + Digits(b) + suffix;
    assert |Digits(a)| == |Digits(b)|;
    assert s[|prefix|..|prefix| + |Digits(a)|] == Digits(a);
    assert t[|prefix|..|prefix| + |Digits(b)|] == Digits(b);
    DigitsInjective(a, b);
  }

  /** The maximal run of digits a text starts with. */
  function LeadingDigits(s: string): (r: string)
    ensures r <= s && AllDigits(r)
    ensures |r| < |s| ==> !IsDigit(s[|r|])
  {
    if s == "" || !IsDigit(s[0]) then "" else [s[0]] + LeadingDigits(s[1..])
  }

  /** The leftmost maximal run of digits, what searching for `\d+` matches. */
  function FirstNumber(s: string): Option<string> {
    if s == "" then None
    else if IsDigit(s[0]) then Some(LeadingDigits(s))
    else FirstNumber(s[1..])
  }

  lemma {:induction false} FirstNumberFound(prefix: string, digits: string, rest: string)
    requires NoDigits(prefix) && AllDigits(digits) && digits != ""
    requires rest != "" ==> !IsDigit(rest[0])
    ensures FirstNumber(prefix + digits + rest) == Some(digits)
  {
    var s := prefix + digits + rest;
    if prefix == "" {
      assert s == digits + rest;
      var r := LeadingDigits(s);
      assert |r| < |s| ==> !IsDigit(s[|r|]);
      assert |r| == |digits|;
      assert r == s[..|digits|] == digits;
    } else {
      assert s[1..] == prefix[1..] + digits + rest;
      FirstNumberFound(prefix[1..], digits, rest);
    }
  }
}
