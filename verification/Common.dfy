/** Small shared vocabulary: optional values and finite ranges of indices. */
module Common {
  datatype Option<+T> = None | Some(value: T)

  function Min(a: int, b: int): int {
    if a <= b then a else b
  }

  function Max(a: int, b: int): int {
    if a <= b then b else a
  }

  function Abs(n: int): nat {
    if n < 0 then -n else n
  }

  function Last<T>(s: seq<T>): T
    requires s != []
  {
    s[|s| - 1]
  }

  function Init<T>(s: seq<T>): seq<T>
    requires s != []
  {
    s[..|s| - 1]
  }

  /** The indices below n. */
  ghost function Below(n: nat): (r: set<int>)
    ensures forall i :: i in r <==> 0 <= i < n
    ensures |r| == n
  {
    if n == 0 then {} else Below(n - 1) + {n - 1}
  }

  /** A subset of the indices below n has at most n members, and n members only if it is all of them. */
  lemma SubsetSize(s: set<int>, n: nat)
    requires s <= Below(n)
    ensures |s| <= n
    ensures |s| == n <==> s == Below(n)
  {
    ProperSubsetSize(s, Below(n));
  }

  lemma ProperSubsetSize<T>(s: set<T>, t: set<T>)
    requires s <= t
    ensures |s| <= |t|
    ensures |s| == |t| <==> s == t
  {
    assert t == s + (t - s);
    assert |t| == |s| + |t - s|;
  }

  lemma Associates<T>(a: seq<T>, b: seq<T>, c: seq<T>)
    ensures a + (b + c) == a + b + c
  {
  }

  const DIGITS := "0123456789"

  /** A number written out. */
  function Decimal(n: nat): string {
    if n < 10 then [DIGITS[n]] else Decimal(n / 10) + [DIGITS[n % 10]]
  }

  /** The number a string of digits denotes. */
  function Number(digits: string): nat
    requires AllDigits(digits)
  {
    if digits == "" then 0
    else
      assert AllDigits(Init(digits)) && IsDigit(digits[|digits| - 1]);
      10 * Number(Init(digits)) + (Last(digits) as int - '0' as int)
  }

  lemma DigitValue(d: nat)
    requires d < 10
    ensures IsDigit(DIGITS[d]) && DIGITS[d] as int - '0' as int == d
  {
  }

  /** Written out and read, a number is itself. */
  lemma {:induction false} DecimalReadsBack(n: nat)
    ensures AllDigits(Decimal(n)) && Number(Decimal(n)) == n
  {
    DigitValue(n % 10);
    if n < 10 {
      assert Init(Decimal(n)) == "";
    } else {
      DecimalReadsBack(n / 10);
      assert Init(Decimal(n)) == Decimal(n / 10);
    }
  }

  lemma DigitIsItself(c: char)
    requires IsDigit(c)
    ensures DIGITS[c as int - '0' as int] == c
  {
    DigitValue(c as int - '0' as int);
  }

  lemma NumberOfMore(front: string, c: char)
    requires AllDigits(front) && IsDigit(c)
    ensures AllDigits(front + [c]) && Number(front + [c]) == 10 * Number(front) + (c as int - '0' as int)
  {
    assert Init(front + [c]) == front;
  }

  lemma DecimalOfMore(front: string, c: char)
    requires AllDigits(front) && IsDigit(c) && Number(front) >= 1 && Decimal(Number(front)) == front
    ensures AllDigits(front + [c]) && Decimal(Number(front + [c])) == front + [c] && Number(front + [c]) >= 10
  {
    NumberOfMore(front, c);
    DigitIsItself(c);
    TenTimes(Number(front), c as int - '0' as int);
    OneMoreDigit(Number(front), c as int - '0' as int, Number(front + [c]));
  }

  lemma TenTimes(n: nat, d: nat)
    requires d < 10
    ensures (10 * n + d) / 10 == n && (10 * n + d) % 10 == d
  {
  }

  lemma OneMoreDigit(n: nat, d: nat, more: nat)
    requires more >= 10 && d < 10 && more / 10 == n && more % 10 == d
    ensures Decimal(more) == Decimal(n) + [DIGITS[d]]
  {
  }

  /** Digits without a leading zero, read and written out, are themselves. */
  lemma {:induction false} DigitsAreDecimal(digits: string)
    requires digits != "" && AllDigits(digits) && digits[0] != '0'
    ensures Number(digits) >= 1 && Decimal(Number(digits)) == digits
  {
    var front, c := Init(digits), Last(digits);
    assert IsDigit(digits[|digits| - 1]) && AllDigits(front);
    assert digits == front + [c];
    NumberOfMore(front, c);
    if front == "" {
      DigitIsItself(c);
    } else {
      DigitsAreDecimal(front);
      DecimalOfMore(front, c);
    }
  }

  lemma {:induction false} NoLeadingZero(n: nat)
    ensures Decimal(n) != "" && (Decimal(n)[0] == '0' ==> n == 0 && Decimal(n) == "0")
  {
    if n < 10 {
      DigitValue(n);
    } else {
      NoLeadingZero(n / 10);
      assert Decimal(n)[0] == Decimal(n / 10)[0];
    }
  }

  /** `toString().padStart(width, "0")` */
  function Pad(n: nat, width: nat): string {
    var d := Decimal(n);
    seq(Max(width - |d|, 0), _ => '0') + d
  }

  lemma {:induction false} LeadingZeros(zeros: string, digits: string)
    requires AllDigits(digits) && forall i | 0 <= i < |zeros| :: zeros[i] == '0'
    ensures AllDigits(zeros + digits) && Number(zeros + digits) == Number(digits)
    decreases |digits|, |zeros|
  {
    var padded := zeros + digits;
    if digits != "" {
      assert Init(padded) == zeros + Init(digits);
      LeadingZeros(zeros, Init(digits));
    } else if zeros != "" {
      assert Init(padded) == Init(zeros) + digits;
      LeadingZeros(Init(zeros), digits);
    }
  }

  lemma PadReadsBack(n: nat, width: nat)
    ensures AllDigits(Pad(n, width)) && Number(Pad(n, width)) == n
  {
    DecimalReadsBack(n);
    LeadingZeros(seq(Max(width - |Decimal(n)|, 0), _ => '0'), Decimal(n));
  }

  // ----- Text.

  predicate IsDigit(c: char) {
    '0' <= c <= '9'
  }

  predicate AllDigits(s: string) {
    forall i | 0 <= i < |s| :: IsDigit(s[i])
  }

  function FirstIndex(s: string, c: char): (i: nat)
    ensures i <= |s| && (forall k | 0 <= k < i :: s[k] != c) && (i < |s| ==> s[i] == c)
  {
    if s == [] || s[0] == c then 0 else 1 + FirstIndex(s[1..], c)
  }

  predicate IsBlank(c: char) {
    c == ' ' || c == '\t'
  }

  /** White space as `trim` and `\s` take it. */
  predicate IsSpace(c: char) {
    || '\t' <= c <= '\r' || c == ' ' || c == '\U{00a0}' || c == '\U{1680}' || '\U{2000}' <= c <= '\U{200a}'
    || c == '\U{2028}' || c == '\U{2029}' || c == '\U{202f}' || c == '\U{205f}' || c == '\U{3000}' || c == '\U{feff}'
  }

  function TrimStart(s: string): string {
    if s != [] && IsSpace(s[0]) then TrimStart(s[1..]) else s
  }

  function TrimEnd(s: string): string {
    if s != [] && IsSpace(Last(s)) then TrimEnd(Init(s)) else s
  }

  function Trim(s: string): string {
    TrimEnd(TrimStart(s))
  }

  predicate EndsWith(s: string, suffix: string) {
    |suffix| <= |s| && s[|s| - |suffix|..] == suffix
  }

  /** `toLowerCase`, on ASCII letters */
  function LowerChar(c: char): char {
    if 'A' <= c <= 'Z' then (c as int + 32) as char else c
  }

  function Lower(s: string): string {
    seq(|s|, i requires 0 <= i < |s| => LowerChar(s[i]))
  }

  /** `toUpperCase`, on ASCII letters */
  function Upper(s: string): (r: string)
    ensures |r| == |s|
  {
    seq(|s|, i requires 0 <= i < |s| => UpperChar(s[i]))
  }

  function UpperChar(c: char): char {
    if 'a' <= c <= 'z' then (c as int - 32) as char else c
  }

  /** `text.split(c)` */
  function SplitOn(s: string, c: char): seq<string>
    decreases |s|
  {
    var i := FirstIndex(s, c);
    if i == |s| then [s] else [s[..i]] + SplitOn(s[i + 1..], c)
  }

  lemma {:induction false} FirstIndexAt(s: string, c: char, tail: string)
    requires c !in s
    ensures FirstIndex(s + ([c] + tail), c) == |s|
  {
    if s != "" {
      assert (s + ([c] + tail))[1..] == s[1..] + ([c] + tail);
      FirstIndexAt(s[1..], c, tail);
    }
  }

  /** A text that is not empty and that trimming leaves alone. */
  predicate Solid(s: string) {
    s != "" && !IsSpace(s[0]) && !IsSpace(Last(s))
  }

  function JoinedBy(lines: seq<string>, c: char): string {
    if lines == [] then "" else if |lines| == 1 then lines[0] else lines[0] + [c] + JoinedBy(lines[1..], c)
  }

  lemma {:induction false} SplitOfJoinedBy(lines: seq<string>, c: char)
    requires lines != [] && forall i | 0 <= i < |lines| :: c !in lines[i]
    ensures SplitOn(JoinedBy(lines, c), c) == lines
  {
    var text, first := JoinedBy(lines, c), lines[0];
    if |lines| == 1 {
      assert FirstIndex(first, c) == |first|;
    } else {
      var rest := JoinedBy(lines[1..], c);
      assert text == first + ([c] + rest);
      FirstIndexAt(first, c, rest);
      SplitOfJoinedBy(lines[1..], c);
      assert text[..|first|] == first && text[|first| + 1..] == rest;
    }
  }

  ghost predicate AllSpace(s: string) {
    forall i | 0 <= i < |s| :: IsSpace(s[i])
  }

  /** Trimming takes the white space off both ends. */
  lemma {:induction false} TrimStartIs(a: string, s: string)
    requires AllSpace(a) && (s == "" || !IsSpace(s[0]))
    ensures TrimStart(a + s) == s
  {
    if a == "" {
      assert a + s == s;
    } else {
      assert (a + s)[0] == a[0] && (a + s)[1..] == a[1..] + s;
      TrimStartIs(a[1..], s);
    }
  }

  lemma {:induction false} TrimEndIs(s: string, b: string)
    requires AllSpace(b) && (s == "" || !IsSpace(Last(s)))
    ensures TrimEnd(s + b) == s
  {
    if b == "" {
      assert s + b == s;
    } else {
      assert Last(s + b) == Last(b) && Init(s + b) == s + Init(b);
      TrimEndIs(s, Init(b));
    }
  }

  lemma TrimIs(a: string, s: string, b: string)
    requires AllSpace(a) && AllSpace(b) && (s == "" || Solid(s))
    ensures Trim(a + s + b) == s
  {
    if s == "" {
      var all := a + s + b;
      TrimStartIs(all, "");
      assert all + "" == all;
    } else {
      assert a + s + b == a + (s + b) && (s + b)[0] == s[0];
      TrimStartIs(a, s + b);
      TrimEndIs(s, b);
    }
  }

  lemma JoinedKeepsFirst(lines: seq<string>, c: char)
    requires lines != []
    ensures lines[0] <= JoinedBy(lines, c)
  {
  }
}
