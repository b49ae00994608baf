/** Strict integer parsing (kstrtox.c): a digit loop with overflow detection against the value of the whole numeral. */
module Kstrtox {
  import opened Octets
  import opened Arith

  const ULLONG_MAX := 0xffff_ffff_ffff_ffff

  datatype Error = EINVAL | ERANGE

  /** The return code, and the number when it is 0. */
  datatype Parsed = Ok(value: int) | Err(error: Error)

  const NEWLINE: byte := 10
  const ZERO: byte := 48
  const PLUS: byte := 43
  const MINUS: byte := 45

  /** A C string: the characters before the terminator. Reading one past them gives the terminator. */
  function At(s: seq<byte>, i: nat): byte {
    if i < |s| then s[i] else 0
  }

  predicate CString(s: seq<byte>) {
    0 !in s
  }

  /** _tolower: c | 0x20 */
  function ToLower(c: byte): (r: byte) {
    if c / 32 % 2 == 0 then c + 32 else c
  }

  predicate IsXDigit(c: byte) {
    48 <= c <= 57 || 65 <= c <= 70 || 97 <= c <= 102
  }

  // ---- What a numeral means ----

  /** The value of a digit in bases up to 16, either case of letter. */
  function Digit(c: byte): Option<nat> {
    if 48 <= c <= 57 then Some(c - 48)
    else if 65 <= c <= 70 then Some(c - 55)
    else if 97 <= c <= 102 then Some(c - 87)
    else None
  }

  predicate IsDigit(c: byte, base: nat) {
    Digit(c).Some? && Digit(c).value < base
  }

  predicate Digits(s: seq<byte>, base: nat) {
    forall i :: 0 <= i < |s| ==> IsDigit(s[i], base)
  }

  /** Positional value. */
  function Value(s: seq<byte>, base: nat): (v: nat)
    requires Digits(s, base)
  {
    if s == [] then 0 else Value(s[..|s| - 1], base) * base + Digit(s[|s| - 1]).value
  }

  /** Length of the longest prefix of digits. */
  function Run(s: seq<byte>, base: nat): (n: nat)
    ensures n <= |s| && Digits(s[..n], base)
    ensures n < |s| ==> !IsDigit(s[n], base)
  {
    if s == [] || !IsDigit(s[0], base) then 0
    else
      var n := 1 + Run(s[1..], base);
      assert forall i :: 1 <= i < n ==> s[i] == s[1..][i - 1];
      n
  }

  /** The base and the start of the digits. */
  function Resolve(s: seq<byte>, base: nat): (r: (nat, nat)) {
    var b := if base != 0 then base
             else if At(s, 0) != ZERO then 10
             else if ToLower(At(s, 1)) == 120 && IsXDigit(At(s, 2)) then 16 else 8;
    (b, if b == 16 && At(s, 0) == ZERO && ToLower(At(s, 1)) == 120 then 2 else 0)
  }

  /** _kstrtoull on the digits themselves: the first overflow decides, then the first character that is not a digit;
      one final newline is allowed. */
  function Parse(s: seq<byte>, base: nat): Parsed {
    var n := Run(s, base);
    if Value(s[..n], base) > ULLONG_MAX then Err(ERANGE)
    else if n == 0 || (n < |s| && s[n..] != [NEWLINE]) then Err(EINVAL)
    else Ok(Value(s[..n], base))
  }

  lemma ResolvedStart(s: seq<byte>, base: nat)
    requires CString(s)
    ensures Resolve(s, base).1 <= |s|
  {
  }

  function ParseULL(s: seq<byte>, base: nat): Parsed
    requires CString(s)
  {
    ResolvedStart(s, base);
    var (b, start) := Resolve(s, base);
    Parse(s[start..], b)
  }

  // ---- Exactly when a string is a number ----

  /** A digit string of the base, and nothing else but one newline at the end. */
  ghost predicate Numeral(s: seq<byte>, body: seq<byte>, base: nat) {
    (s == body || s == body + [NEWLINE]) && body != [] && Digits(body, base)
  }

  lemma RunOf(s: seq<byte>, body: seq<byte>, base: nat)
    requires Numeral(s, body, base)
    ensures Run(s, base) == |body| && s[..|body|] == body
  {
    var n := Run(s, base);
    assert forall i :: 0 <= i < |body| ==> s[i] == body[i] && IsDigit(s[i], base);
    assert forall i :: 0 <= i < n ==> s[..n][i] == s[i] && IsDigit(s[i], base);
    assert !IsDigit(NEWLINE, base);
    assert |body| < |s| ==> s[|body|] == NEWLINE;
  }

  /** Success is exactly: a numeral whose mathematical value fits 64 bits, and then that value. */
  lemma ParseExact(s: seq<byte>, base: nat, v: int)
    ensures Parse(s, base) == Ok(v) <==>
            exists body :: Numeral(s, body, base) && Value(body, base) == v <= ULLONG_MAX
  {
    if Parse(s, base) == Ok(v) {
      var n := Run(s, base);
      var body := s[..n];
      assert s == body + s[n..];
      assert Numeral(s, body, base);
    }
    if body :| Numeral(s, body, base) && Value(body, base) == v <= ULLONG_MAX {
      RunOf(s, body, base);
    }
  }

  // ---- The whole string ----

  /** 0x or 0X */
  predicate IsPrefix(p: seq<byte>) {
    p == [ZERO, 120] || p == [ZERO, 88]
  }

  /** How a number may be written for the base argument `base`: digits of that base; for 16 and for 0, hexadecimal digits
      after 0x; for 0 without it, octal digits if the first is 0 and decimal digits otherwise. */
  predicate Based(base: nat, prefix: seq<byte>, body: seq<byte>, b: nat) {
    && (prefix == [] || (IsPrefix(prefix) && (base == 0 || base == 16)))
    && b == if base != 0 then base else if prefix != [] then 16 else if At(body, 0) == ZERO then 8 else 10
  }

  ghost predicate Written(s: seq<byte>, base: nat, prefix: seq<byte>, body: seq<byte>, b: nat) {
    Based(base, prefix, body, b) && prefix <= s && Numeral(s[|prefix|..], body, b)
  }

  ghost predicate IsNumber(s: seq<byte>, base: nat, v: int) {
    exists prefix, body, b :: Written(s, base, prefix, body, b) && Value(body, b) == v <= ULLONG_MAX
  }

  lemma WrittenResolves(s: seq<byte>, base: nat, prefix: seq<byte>, body: seq<byte>, b: nat)
    requires CString(s) && Written(s, base, prefix, body, b)
    ensures Resolve(s, base) == (b, |prefix|)
  {
    var rest := s[|prefix|..];
    assert rest[0] == body[0] && IsDigit(body[0], b);
    assert s == prefix + rest;
    if prefix != [] {
      assert s[0] == ZERO && s[1] == prefix[1] && s[2] == body[0];
    } else {
      assert rest == s;
      if |body| >= 2 {
        assert s[1] == body[1] && IsDigit(body[1], b);
      } else if |s| >= 2 {
        assert s[1] == NEWLINE;
      }
    }
  }

  lemma ResolveWrites(s: seq<byte>, base: nat, body: seq<byte>)
    requires CString(s) && Resolve(s, base).1 <= |s|
    requires Numeral(s[Resolve(s, base).1..], body, Resolve(s, base).0)
    ensures Written(s, base, s[..Resolve(s, base).1], body, Resolve(s, base).0)
  {
    var (b, start) := Resolve(s, base);
    var rest := s[start..];
    assert rest[0] == body[0];
    if start == 2 {
      assert s[..2] == [s[0], s[1]];
    } else {
      assert rest == s;
    }
  }

  /** _kstrtoull succeeds exactly on numbers that fit 64 bits, and then with their value. */
  lemma ParseULLExact(s: seq<byte>, base: nat, v: int)
    requires CString(s)
    ensures ParseULL(s, base) == Ok(v) <==> IsNumber(s, base, v)
  {
    ResolvedStart(s, base);
    var (b, start) := Resolve(s, base);
    ParseExact(s[start..], b, v);
    if ParseULL(s, base) == Ok(v) {
      var body :| Numeral(s[start..], body, b) && Value(body, b) == v <= ULLONG_MAX;
      ResolveWrites(s, base, body);
    }
    if IsNumber(s, base, v) {
      var prefix, body, c :| Written(s, base, prefix, body, c) && Value(body, c) == v <= ULLONG_MAX;
      WrittenResolves(s, base, prefix, body, c);
    }
  }

  // ---- Exactly when a number is out of range ----

  /** Some digits at the beginning already stand for more than 64 bits hold, whatever follows. */
  ghost predicate TooLarge(s: seq<byte>, base: nat) {
    exists body :: body <= s && Digits(body, base) && Value(body, base) > ULLONG_MAX
  }

  lemma ParseOutOfRange(s: seq<byte>, base: nat)
    ensures Parse(s, base) == Err(ERANGE) <==> TooLarge(s, base)
  {
    var n := Run(s, base);
    if Parse(s, base) == Err(ERANGE) {
      assert s[..n] <= s;
    }
    if body :| body <= s && Digits(body, base) && Value(body, base) > ULLONG_MAX {
      assert forall i :: 0 <= i < |body| ==> s[i] == body[i];
      assert s[..n][..|body|] == body;
      ValueMonotone(s[..n], |body|, base);
    }
  }

  ghost predicate BeginsTooLarge(s: seq<byte>, base: nat, prefix: seq<byte>, body: seq<byte>, b: nat) {
    Based(base, prefix, body, b) && prefix + body <= s && Digits(body, b) && Value(body, b) > ULLONG_MAX
  }

  ghost predicate OutOfRange(s: seq<byte>, base: nat) {
    exists prefix, body, b :: BeginsTooLarge(s, base, prefix, body, b)
  }

  lemma LargeHasTwo(body: seq<byte>, b: nat)
    requires Digits(body, b) && Value(body, b) > ULLONG_MAX
    ensures |body| >= 2 && b > 0
  {
  }

  /** The error for a number out of range is returned exactly then, and the error for no number in all other cases of
      failure: there is no third one. */
  lemma ParseULLOutOfRange(s: seq<byte>, base: nat)
    requires CString(s)
    ensures ParseULL(s, base) == Err(ERANGE) <==> OutOfRange(s, base)
  {
    hide Parse, Value, BeginsTooLarge, Resolve;
    ResolvedStart(s, base);
    var (b, start) := Resolve(s, base);
    ParseOutOfRange(s[start..], b);
    if body :| body <= s[start..] && Digits(body, b) && Value(body, b) > ULLONG_MAX {
      ResolveBegins(s, base, body);
    }
    if prefix, body, c :| BeginsTooLarge(s, base, prefix, body, c) {
      BeginsResolves(s, base, prefix, body, c);
    }
  }

  lemma ResolveBegins(s: seq<byte>, base: nat, body: seq<byte>)
    requires CString(s) && Resolve(s, base).1 <= |s|
    requires var (b, start) := Resolve(s, base); body <= s[start..] && Digits(body, b) && Value(body, b) > ULLONG_MAX
    ensures BeginsTooLarge(s, base, s[..Resolve(s, base).1], body, Resolve(s, base).0)
  {
    hide Value;
    var (b, start) := Resolve(s, base);
    LargeHasTwo(body, b);
    assert body[0] == s[start];
    assert start == 2 ==> s[..2] == [s[0], s[1]];
  }

  lemma BeginsResolves(s: seq<byte>, base: nat, prefix: seq<byte>, body: seq<byte>, b: nat)
    requires CString(s) && BeginsTooLarge(s, base, prefix, body, b)
    ensures Resolve(s, base) == (b, |prefix|) && body <= s[|prefix|..] && TooLarge(s[|prefix|..], b)
  {
    hide Value;
    LargeHasTwo(body, b);
    var n := |prefix|;
    assert s[n] == (prefix + body)[n] == body[0] && s[n + 1] == (prefix + body)[n + 1] == body[1];
    assert prefix != [] ==> s[0] == (prefix + body)[0] == prefix[0] && s[1] == (prefix + body)[1] == prefix[1];
    assert IsDigit(body[0], b) && IsDigit(body[1], b);
  }

  lemma {:induction false} ValueMonotone(s: seq<byte>, n: nat, base: nat)
    requires Digits(s, base) && n <= |s| && base > 0
    ensures Value(s[..n], base) <= Value(s, base)
    decreases |s| - n
  {
    if n < |s| {
      ValueMonotone(s, n + 1, base);
      ValueStep(s, n, base);
      MulGrows(Value(s[..n], base), base);
    } else {
      assert s[..n] == s;
    }
  }

  lemma MulGrows(a: nat, base: nat)
    requires base > 0
    ensures a <= a * base
  {
    Distribute(1, base - 1, a);
  }

  lemma ValueStep(s: seq<byte>, n: nat, base: nat)
    requires n < |s| && Digits(s[..n + 1], base)
    ensures Digits(s[..n], base) && IsDigit(s[n], base)
    ensures Value(s[..n + 1], base) == Value(s[..n], base) * base + Digit(s[n]).value
  {
    var t := s[..n + 1];
    assert t[..n] == s[..n] && t[n] == s[n];
  }

  /** The overflow test of the loop, acc > (ULLONG_MAX - val) / base, is exact. */
  lemma OverflowTest(acc: nat, val: nat, base: nat)
    requires base > 0 && val <= ULLONG_MAX
    ensures acc > (ULLONG_MAX - val) / base <==> acc * base + val > ULLONG_MAX
  {
    var m := ULLONG_MAX - val;
    var q, r := m / base, m % base;
    assert m == q * base + r;
    if acc > q {
      Distribute(q, acc - q, base);
      MulAtLeast(acc - q, base);
    } else {
      Distribute(acc, q - acc, base);
    }
  }

  /** What a call leaves behind: 0 and the number in `*res`, or an error and `*res` as it was. */
  predicate Left(p: Parsed, e: Option<Error>, before: int, after: int) {
    match p
    case Ok(v) => e == None && after == v
    case Err(x) => e == Some(x) && after == before
  }

  /** _kstrtoull, loop and all; `res` is the variable that it stores to. */
  method KstrtoullUnsigned(str: seq<byte>, base0: nat, res: array<int>) returns (e: Option<Error>)
    requires CString(str) && res.Length == 1
    modifies res
    ensures Left(ParseULL(str, base0), e, old(res[0]), res[0])
  {
    var base := base0;
    if base == 0 {
      if At(str, 0) == ZERO {
        if ToLower(At(str, 1)) == 120 && IsXDigit(At(str, 2)) {
          base := 16;
        } else {
          base := 8;
        }
      } else {
        base := 10;
      }
    }
    var start := 0;
    if base == 16 && At(str, 0) == ZERO && ToLower(At(str, 1)) == 120 {
      start := 2;
    }
    ResolvedStart(str, base0);
    assert Resolve(str, base0) == (base, start);
    var r := DigitLoop(str[start..], base);
    if r.Err? {
      return Some(r.error);
    }
    res[0] := r.value;
    return None;
  }

  /** Its loop over the characters up to the terminator. */
  method DigitLoop(s: seq<byte>, base: nat) returns (r: Parsed)
    requires CString(s) && base > 0
    ensures r == Parse(s, base)
  {
    ghost var n := Run(s, base);
    var acc, i := 0, 0;
    while i < |s|
      invariant 0 <= i <= n
      invariant Digits(s[..i], base) && acc == Value(s[..i], base) <= ULLONG_MAX
    {
      var c := s[i];
      var val;
      assert c != 0 by { assert c in s; }
      if 48 <= c <= 57 {
        val := c - 48;
      } else if 97 <= ToLower(c) <= 102 {
        val := ToLower(c) - 97 + 10;
      } else if c == NEWLINE {
        assert !IsDigit(c, base) && i == n;
        if i + 1 == |s| {
          break;
        }
        assert s[n..] != [NEWLINE];
        return Err(EINVAL);
      } else {
        assert !IsDigit(c, base) && i == n;
        return Err(EINVAL);
      }
      assert Digit(c) == Some(val);
      if val >= base {
        assert i == n;
        return Err(EINVAL);
      }
      OneMore(s, base, i);
      OverflowTest(acc, val, base);
      if acc > (ULLONG_MAX - val) / base {
        ValueMonotone(s[..n], i + 1, base);
        assert s[..n][..i + 1] == s[..i + 1];
        return Err(ERANGE);
      }
      acc := acc * base + val;
      i := i + 1;
    }
    if i == 0 {
      return Err(EINVAL);
    }
    return Ok(acc);
  }

  lemma OneMore(s: seq<byte>, base: nat, i: nat)
    requires i < |s| && i <= Run(s, base) && IsDigit(s[i], base)
    ensures i < Run(s, base) && Digits(s[..i + 1], base) && Digits(s[..i], base)
    ensures Value(s[..i + 1], base) == Value(s[..i], base) * base + Digit(s[i]).value
  {
    var n := Run(s, base);
    assert forall k :: 0 <= k < n ==> s[k] == s[..n][k];
    ValueStep(s, i, base);
  }

  // ---- Signs and widths ----

  const TWO63 := 0x8000_0000_0000_0000
  const TWO64 := 0x1_0000_0000_0000_0000

  /** A conversion to a signed type of modulus `m`: the representative in [-m/2, m/2). */
  function AsSigned(x: int, m: int): int
    requires m > 0
  {
    if x % m < m / 2 then x % m else x % m - m
  }

  /** kstrtoull */
  function Kstrtoull(s: seq<byte>, base: nat): Parsed
    requires CString(s)
  {
    ParseULL(if At(s, 0) == PLUS then s[1..] else s, base)
  }

  /** kstrtoull succeeds exactly on numbers that fit 64 bits with at most one plus sign in front. */
  lemma KstrtoullExact(s: seq<byte>, base: nat, v: int)
    requires CString(s)
    ensures Kstrtoull(s, base) == Ok(v) <==> IsNumber(s, base, v) || (At(s, 0) == PLUS && IsNumber(s[1..], base, v))
  {
    ParseULLExact(if At(s, 0) == PLUS then s[1..] else s, base, v);
    if At(s, 0) == PLUS {
      NoNumber(s, base, v);
    }
  }

  lemma KstrtoullOutOfRange(s: seq<byte>, base: nat)
    requires CString(s)
    ensures Kstrtoull(s, base) == Err(ERANGE) <==> OutOfRange(if At(s, 0) == PLUS then s[1..] else s, base)
  {
    ParseULLOutOfRange(if At(s, 0) == PLUS then s[1..] else s, base);
  }

  /** A sign is no digit. */
  lemma NoNumber(s: seq<byte>, base: nat, v: int)
    requires CString(s) && At(s, 0) == PLUS
    ensures !IsNumber(s, base, v)
  {
  }

  /** kstrtoll: the unsigned number, its sign checked after conversion to a signed 64-bit value. */
  function Kstrtoll(s: seq<byte>, base: nat): Parsed
    requires CString(s)
  {
    if At(s, 0) == MINUS then
      match ParseULL(s[1..], base)
      case Err(e) => Err(e)
      case Ok(tmp) => if AsSigned(-tmp, TWO64) >= 0 then Err(ERANGE) else Ok(AsSigned(-tmp, TWO64))
    else
      match Kstrtoull(s, base)
      case Err(e) => Err(e)
      case Ok(tmp) => if AsSigned(tmp, TWO64) < 0 then Err(ERANGE) else Ok(AsSigned(tmp, TWO64))
  }

  lemma ParsedRange(s: seq<byte>, base: nat)
    requires CString(s)
    ensures ParseULL(s, base).Ok? ==> 0 <= ParseULL(s, base).value <= ULLONG_MAX
  {
  }

  /** With a minus sign the accepted magnitudes are exactly 1 to 2^63: "-0" is refused, the least 64-bit number is
      not. Without one they are 0 to 2^63 - 1. */
  lemma KstrtollExact(s: seq<byte>, base: nat, v: int)
    requires CString(s)
    ensures At(s, 0) == MINUS ==>
              (Kstrtoll(s, base) == Ok(v) <==> ParseULL(s[1..], base) == Ok(-v) && 1 <= -v <= TWO63)
    ensures At(s, 0) != MINUS ==>
              (Kstrtoll(s, base) == Ok(v) <==> Kstrtoull(s, base) == Ok(v) && 0 <= v < TWO63)
    ensures At(s, 0) == MINUS ==>
              var p := ParseULL(s[1..], base);
              (Kstrtoll(s, base) == Err(ERANGE) <==> if p.Ok? then p.value == 0 || p.value > TWO63 else p == Err(ERANGE))
    ensures At(s, 0) != MINUS ==>
              var p := Kstrtoull(s, base);
              (Kstrtoll(s, base) == Err(ERANGE) <==> if p.Ok? then p.value >= TWO63 else p == Err(ERANGE))
  {
    hide ParseULL, AsSigned;
    var t := if At(s, 0) == MINUS || At(s, 0) == PLUS then s[1..] else s;
    ParsedRange(t, base);
    if ParseULL(t, base).Ok? {
      Signed64(ParseULL(t, base).value);
    }
  }

  lemma Signed64(x: int)
    requires 0 <= x <= ULLONG_MAX
    ensures AsSigned(-x, TWO64) == if x == 0 then 0 else if x <= TWO63 then -x else TWO64 - x
    ensures AsSigned(x, TWO64) == if x < TWO63 then x else x - TWO64
  {
    DivModUnique(x, TWO64, 0, x);
    if x > 0 {
      DivModUnique(-x, TWO64, -1, TWO64 - x);
    }
  }

  /** The narrowing wrappers: kstrtou8, kstrtou16, kstrtouint and _kstrtoul, for a type of modulus `m`. */
  function Unsigned(s: seq<byte>, base: nat, m: int): Parsed
    requires CString(s) && m > 0
  {
    match Kstrtoull(s, base)
    case Err(e) => Err(e)
    case Ok(tmp) => if tmp != tmp % m then Err(ERANGE) else Ok(tmp)
  }

  /** kstrtos8, kstrtos16, kstrtoint and _kstrtol. */
  function Signed(s: seq<byte>, base: nat, m: int): Parsed
    requires CString(s) && m > 0
  {
    match Kstrtoll(s, base)
    case Err(e) => Err(e)
    case Ok(tmp) => if tmp != AsSigned(tmp, m) then Err(ERANGE) else Ok(tmp)
  }

  /** The comparison after the cast accepts exactly the numbers of the narrow type. */
  lemma NarrowExact(s: seq<byte>, base: nat, m: int, v: int)
    requires CString(s) && m > 0 && m % 2 == 0
    ensures Unsigned(s, base, m) == Ok(v) <==> Kstrtoull(s, base) == Ok(v) && 0 <= v < m
    ensures Signed(s, base, m) == Ok(v) <==> Kstrtoll(s, base) == Ok(v) && -(m / 2) <= v < m / 2
    ensures Kstrtoull(s, base) == Ok(v) && v >= 0 ==> (Unsigned(s, base, m) == Err(ERANGE) <==> v >= m)
    ensures Kstrtoll(s, base) == Ok(v) ==> (Signed(s, base, m) == Err(ERANGE) <==> !(-(m / 2) <= v < m / 2))
    ensures forall e :: Kstrtoull(s, base) == Err(e) ==> Unsigned(s, base, m) == Err(e)
    ensures forall e :: Kstrtoll(s, base) == Err(e) ==> Signed(s, base, m) == Err(e)
  {
    hide Kstrtoull, Kstrtoll;
    if 0 <= v < m {
      DivModUnique(v, m, 0, v);
    } else if -m <= v < 0 {
      DivModUnique(v, m, -1, v + m);
    }
  }

  // ---- The functions as the source writes them ----

  method KstrtoullMethod(s: seq<byte>, base: nat, res: array<int>) returns (e: Option<Error>)
    requires CString(s) && res.Length == 1
    modifies res
    ensures Left(Kstrtoull(s, base), e, old(res[0]), res[0])
  {
    e := KstrtoullUnsigned(if At(s, 0) == PLUS then s[1..] else s, base, res);
  }

  method KstrtollMethod(s: seq<byte>, base: nat, res: array<int>) returns (e: Option<Error>)
    requires CString(s) && res.Length == 1
    modifies res
    ensures Left(Kstrtoll(s, base), e, old(res[0]), res[0])
  {
    hide ParseULL, AsSigned;
    var tmp := new int[1];
    if At(s, 0) == MINUS {
      e := KstrtoullUnsigned(s[1..], base, tmp);
      if e.Some? {
        return;
      }
      if AsSigned(-tmp[0], TWO64) >= 0 {
        return Some(ERANGE);
      }
      res[0] := AsSigned(-tmp[0], TWO64);
    } else {
      e := KstrtoullMethod(s, base, tmp);
      if e.Some? {
        return;
      }
      if AsSigned(tmp[0], TWO64) < 0 {
        return Some(ERANGE);
      }
      res[0] := AsSigned(tmp[0], TWO64);
    }
  }

  /** The wrapper for an unsigned type of modulus `m`. */
  method UnsignedMethod(s: seq<byte>, base: nat, m: int, res: array<int>) returns (e: Option<Error>)
    requires CString(s) && m > 0 && res.Length == 1
    modifies res
    ensures Left(Unsigned(s, base, m), e, old(res[0]), res[0])
  {
    hide Kstrtoull;
    var tmp := new int[1];
    e := KstrtoullMethod(s, base, tmp);
    if e.Some? {
      return;
    }
    if tmp[0] != tmp[0] % m {
      return Some(ERANGE);
    }
    res[0] := tmp[0];
  }

  /** The wrapper for a signed type. */
  method SignedMethod(s: seq<byte>, base: nat, m: int, res: array<int>) returns (e: Option<Error>)
    requires CString(s) && m > 0 && res.Length == 1
    modifies res
    ensures Left(Signed(s, base, m), e, old(res[0]), res[0])
  {
    hide Kstrtoll, AsSigned;
    var tmp := new int[1];
    e := KstrtollMethod(s, base, tmp);
    if e.Some? {
      return;
    }
    if tmp[0] != AsSigned(tmp[0], m) {
      return Some(ERANGE);
    }
    res[0] := tmp[0];
  }
}
