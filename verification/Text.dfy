/** Replace-all and decimal numbers on text, as the Rust standard library has them. */
module Text {
  import opened Wrappers

  // ----- finding and replacing -----

  /** Where `pattern` first occurs in `s`. */
  function Find(s: string, pattern: string): (at: Option<nat>)
    ensures at.Some? ==> at.value + |pattern| <= |s|
  {
    if pattern <= s then Some(0)
    else if s == "" then None
    else
      var later := Find(s[1..], pattern);
      if later.Some? then Some(later.value + 1) else None
  }

  /** `Find` reports an occurrence, and the first one. */
  lemma {:induction false} FindIsFirst(s: string, pattern: string)
    ensures Find(s, pattern).None? ==> forall k :: 0 <= k <= |s| ==> !(pattern <= s[k..])
    ensures Find(s, pattern).Some? ==> var at := Find(s, pattern).value;
      pattern <= s[at..] && forall k :: 0 <= k < at ==> !(pattern <= s[k..])
  {
    assert s[0..] == s;
    if !(pattern <= s) && s != "" {
      FindIsFirst(s[1..], pattern);
      forall k | 0 < k <= |s| ensures s[1..][k - 1..] == s[k..] {
      }
    }
  }

  /** `str::replace`: every occurrence from the left, none overlapping the one before. */
  function ReplaceAll(s: string, pattern: string, with: string): string
    requires pattern != ""
  {
    if s == "" then ""
    else if pattern <= s then with + ReplaceAll(s[|pattern|..], pattern, with)
    else [s[0]] + ReplaceAll(s[1..], pattern, with)
  }

  /** `s` is `before`, then `pattern`, then `rest`. */
  predicate Splits(s: string, before: string, pattern: string, rest: string) {
    s == before + pattern + rest
  }

  /** The occurrence `Find` reports is one; what stands before it is kept and the rest is treated alike. */
  lemma {:induction false} ReplaceAtFirst(s: string, pattern: string, with: string)
    requires pattern != ""
    ensures Find(s, pattern).None? ==> ReplaceAll(s, pattern, with) == s
    ensures Find(s, pattern).Some? ==> var at := Find(s, pattern).value;
      && Splits(s, s[..at], pattern, s[at + |pattern|..])
      && ReplaceAll(s, pattern, with) == s[..at] + with + ReplaceAll(s[at + |pattern|..], pattern, with)
  {
    if pattern <= s {
      assert s[..0] + with == with;
    } else if s != "" {
      ReplaceAtFirst(s[1..], pattern, with);
      if Find(s[1..], pattern).Some? {
        FoundInTail(s, s[1..], pattern, with, Find(s[1..], pattern).value, ReplaceAll(s[1..], pattern, with));
      }
    }
  }

  lemma Regroup(a: string, b: string, c: string, d: string)
    ensures a + (b + c + d) == (a + b) + c + d
  {
  }

  lemma TailSlices(s: string, at: nat, end: nat)
    requires s != "" && at <= end < |s|
    ensures s[1..][end..] == s[end + 1..] && [s[0]] + s[1..][..at] == s[..at + 1] && s == [s[0]] + s[1..]
  {
  }

  lemma FoundInTail(s: string, tail: string, pattern: string, with: string, at: nat, replaced: string)
    requires pattern != "" && s != "" && tail == s[1..] && at + |pattern| <= |tail|
    requires Splits(tail, tail[..at], pattern, tail[at + |pattern|..])
    requires replaced == tail[..at] + with + ReplaceAll(tail[at + |pattern|..], pattern, with)
    ensures Splits(s, s[..at + 1], pattern, s[at + 1 + |pattern|..])
    ensures [s[0]] + replaced == s[..at + 1] + with + ReplaceAll(s[at + 1 + |pattern|..], pattern, with)
  {
    var before, rest := tail[..at], tail[at + |pattern|..];
    TailSlices(s, at, at + |pattern|);
    Regroup([s[0]], before, pattern, rest);
    Regroup([s[0]], before, with, ReplaceAll(rest, pattern, with));
  }

  // ----- trimming and splitting -----

  /** White space among the ASCII characters. */
  predicate IsSpace(c: char) {
    c == ' ' || '\t' <= c <= '\r'
  }

  function TrimStart(s: string): (t: string)
    ensures |t| <= |s| && (t != "" ==> !IsSpace(t[0]))
  {
    if s != "" && IsSpace(s[0]) then TrimStart(s[1..]) else s
  }

  function TrimEnd(s: string): string {
    if s != "" && IsSpace(s[|s| - 1]) then TrimEnd(s[..|s| - 1]) else s
  }

  /** The first `c` from `i` on, or the end. */
  function Until(s: string, i: nat, c: char): (j: nat)
    requires i <= |s|
    ensures i <= j <= |s|
    decreases |s| - i
  {
    if i < |s| && s[i] != c then Until(s, i + 1, c) else i
  }

  /** `split_once`: the parts before and behind the first `c`. */
  function SplitOnce(s: string, c: char): Option<(string, string)> {
    var k := Until(s, 0, c);
    if k == |s| then None else Some((s[..k], s[k + 1..]))
  }

  // ----- numbers -----

  predicate IsDigit(c: char) {
    '0' <= c <= '9'
  }

  predicate AllDigits(s: string) {
    forall i :: 0 <= i < |s| ==> IsDigit(s[i])
  }

  function Digit(d: nat): (c: char)
    requires d < 10
    ensures IsDigit(c) && c as int - '0' as int == d
  {
    "0123456789"[d]
  }

  function Decimal(n: nat): (s: string)
    ensures s != "" && AllDigits(s)
  {
    if n < 10 then [Digit(n)] else Decimal(n / 10) + [Digit(n % 10)]
  }

  /** A decimal starts with no zero, unless it is zero. */
  lemma {:induction false} DecimalHasNoLeadingZero(n: nat)
    ensures Decimal(n)[0] == '0' ==> Decimal(n) == "0" && n == 0
  {
    if n >= 10 { DecimalHasNoLeadingZero(n / 10); }
  }

  function Value(s: string): nat
    requires AllDigits(s)
  {
    if s == "" then 0 else 10 * Value(s[..|s| - 1]) + (s[|s| - 1] as int - '0' as int)
  }

  lemma {:induction false} ValueOfDecimal(n: nat)
    ensures Value(Decimal(n)) == n
  {
    if n >= 10 {
      ValueOfDecimal(n / 10);
      assert Decimal(n)[..|Decimal(n)| - 1] == Decimal(n / 10);
    } else {
      assert Decimal(n)[..0] == "";
    }
  }

  /** `{}` for a signed integer. */
  function Printed(n: int): string {
    if n < 0 then "-" + Decimal(-n) else Decimal(n)
  }

  /** `str::parse` into an integer type with these bounds: a sign, at least one digit, and no overflow. */
  function ParseInt(s: string, low: int, high: int): Option<int> {
    if s == "" then None
    else
      var digits := if s[0] == '-' || s[0] == '+' then s[1..] else s;
      if digits == "" || !AllDigits(digits) then None
      else
        InRange(if s[0] == '-' then 0 - Value(digits) else Value(digits), low, high)
  }

  function InRange(n: int, low: int, high: int): Option<int> {
    if low <= n <= high then Some(n) else None
  }

  lemma ParseDigits(digits: string, low: int, high: int)
    requires digits != "" && AllDigits(digits)
    ensures ParseInt(digits, low, high) == InRange(Value(digits), low, high)
  {
    assert IsDigit(digits[0]);
  }

  lemma ParseNegative(digits: string, low: int, high: int)
    requires digits != "" && AllDigits(digits)
    ensures ParseInt("-" + digits, low, high) == InRange(0 - Value(digits), low, high)
  {
    assert ("-" + digits)[1..] == digits;
  }

  /** Parsing undoes printing. */
  lemma ParseOfPrinted(n: int, low: int, high: int)
    requires low <= n <= high
    ensures ParseInt(Printed(n), low, high) == Some(n)
  {
    var m := if n < 0 then -n else n;
    var digits := Decimal(m);
    ValueOfDecimal(m);
    assert Printed(n) == if n < 0 then "-" + digits else digits;
    if n < 0 { ParseNegative(digits, low, high); } else { ParseDigits(digits, low, high); }
  }

  function Zeros(n: nat): (s: string)
    ensures |s| == n && forall i :: 0 <= i < n ==> s[i] == '0'
  {
    if n == 0 then "" else "0" + Zeros(n - 1)
  }

  /** Leading zeros do not change a value. */
  lemma {:induction false} ValueOfPadded(zeros: string, digits: string)
    requires AllDigits(digits) && forall i :: 0 <= i < |zeros| ==> zeros[i] == '0'
    ensures AllDigits(zeros + digits) && Value(zeros + digits) == Value(digits)
    decreases |zeros| + |digits|
  {
    var s := zeros + digits;
    if digits != "" {
      ValueOfPadded(zeros, digits[..|digits| - 1]);
      assert s[..|s| - 1] == zeros + digits[..|digits| - 1];
    } else if zeros != "" {
      ValueOfPadded(zeros[..|zeros| - 1], "");
      assert s[..|s| - 1] == zeros[..|zeros| - 1] + "";
    }
  }
}
