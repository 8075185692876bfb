/** Decimal numbers on the wire: std::to_string, std::stoi / std::stol, and the narrowing of a
    length to a 32-bit int. */
module Numbers {
  import opened Wire
  import opened Option

  const INT_MIN: int := -0x8000_0000
  const INT_MAX: int := 0x7FFF_FFFF
  const LONG_MIN: int := -0x8000_0000_0000_0000
  const LONG_MAX: int := 0x7FFF_FFFF_FFFF_FFFF

  predicate IsDigit(c: char) { '0' <= c <= '9' }

  ghost predicate AllDigits(s: Bytes) {
    forall i :: 0 <= i < |s| ==> IsDigit(s[i])
  }

  predicate IsSpace(c: char) {
    c == ' ' || '\t' <= c <= '\r'
  }

  function NatToString(n: nat): (s: Bytes)
    ensures |s| > 0 && AllDigits(s)
  {
    if n < 10 then ['0' + n as char] else NatToString(n / 10) + ['0' + (n % 10) as char]
  }

  /** std::to_string */
  function ToString(n: int): (s: Bytes)
    ensures |s| > 0
  {
    if n < 0 then "-" + NatToString(-n) else NatToString(n)
  }

  /** Length of the run of digits `s` starts with. */
  function DigitRun(s: Bytes): (n: nat)
    ensures n <= |s| && AllDigits(s[..n])
    ensures n < |s| ==> !IsDigit(s[n])
  {
    if |s| > 0 && IsDigit(s[0]) then
      var n := DigitRun(s[1..]);
      assert forall i :: 0 < i < n + 1 ==> s[i] == s[1..][..n][i - 1];
      n + 1
    else 0
  }

  function Value(s: Bytes): nat
    requires AllDigits(s)
  {
    if |s| == 0 then 0 else 10 * Value(s[..|s| - 1]) + (s[|s| - 1] - '0') as nat
  }

  function SkipSpace(s: Bytes): Bytes {
    if |s| > 0 && IsSpace(s[0]) then SkipSpace(s[1..]) else s
  }

  /** std::stoi and std::stol: skip white space, read a sign and digits, ignore what follows;
      `None` where they throw, for want of a digit or because the value is out of range. */
  function Parse(s: Bytes, lo: int, hi: int): Option<int> {
    var t := SkipSpace(s);
    var signed := |t| > 0 && (t[0] == '-' || t[0] == '+');
    var u := if signed then t[1..] else t;
    var n := DigitRun(u);
    if n == 0 then None
    else
      var magnitude: int := Value(u[..n]);
      var v := if signed && t[0] == '-' then -magnitude else magnitude;
      if lo <= v <= hi then Some(v) else None
  }

  function Stoi(s: Bytes): Option<int> { Parse(s, INT_MIN, INT_MAX) }

  function Stol(s: Bytes): Option<int> { Parse(s, LONG_MIN, LONG_MAX) }

  /** A long passed where an int is taken. */
  function ToInt32(n: int): (r: int)
    ensures -0x8000_0000 <= r <= 0x7FFF_FFFF && (r - n) % 0x1_0000_0000 == 0
    ensures r == n <==> INT_MIN <= n <= INT_MAX
  {
    var m := n % 0x1_0000_0000;
    if m > INT_MAX then m - 0x1_0000_0000 else m
  }

  lemma ValueOfNat(n: nat)
    ensures Value(NatToString(n)) == n
  {
  }

  lemma DigitRunAll(s: Bytes)
    requires AllDigits(s)
    ensures DigitRun(s) == |s|
  {
  }

  /** Decimal notation: a digit for a number below ten, and one more for every factor of ten. */
  lemma DecimalDigits(n: nat, d: nat)
    requires d < 10
    ensures NatToString(d) == ['0' + d as char]
    ensures n > 0 ==> NatToString(10 * n + d) == NatToString(n) + ['0' + d as char]
    ensures n > 0 ==> ToString(0 - n) == "-" + NatToString(n) && ToString(n) == NatToString(n)
  {
  }

  lemma {:induction false} SpaceSkipped(space: Bytes, rest: Bytes)
    requires forall i :: 0 <= i < |space| ==> space[i] in " \t\n\U{0B}\U{0C}\r"
    requires rest != "" && rest[0] !in " \t\n\U{0B}\U{0C}\r"
    ensures SkipSpace(space + rest) == rest
  {
    if |space| > 0 {
      assert (space + rest)[1..] == space[1..] + rest;
      SpaceSkipped(space[1..], rest);
    } else {
      assert space + rest == rest;
    }
  }

  lemma {:induction false} RunOf(digits: Bytes, rest: Bytes)
    requires AllDigits(digits) && (rest != "" ==> !IsDigit(rest[0]))
    ensures DigitRun(digits + rest) == |digits| && (digits + rest)[..|digits|] == digits
  {
    if |digits| > 0 {
      assert (digits + rest)[1..] == digits[1..] + rest;
      RunOf(digits[1..], rest);
    } else {
      assert digits + rest == rest;
    }
  }

  lemma SignedRead(sign: Bytes, digits: Bytes, rest: Bytes)
    requires (sign == "" || sign == "+" || sign == "-") && digits != "" && AllDigits(digits)
    requires rest != "" ==> !IsDigit(rest[0])
    ensures var t := sign + (digits + rest);
            && t[0] == (if sign == "" then digits[0] else sign[0]) && t[0] !in " \t\n\U{0B}\U{0C}\r"
            && (if sign == "" then t else t[1..]) == digits + rest
  {
    var t := sign + (digits + rest);
    assert IsDigit(digits[0]);
    if sign == "" {
      assert t == digits + rest;
    } else {
      assert t[1..] == digits + rest;
    }
  }

  lemma ParseSteps(s: Bytes, t: Bytes, u: Bytes, digits: Bytes, lo: int, hi: int)
    requires SkipSpace(s) == t && t != "" && u == if t[0] in "+-" then t[1..] else t
    requires DigitRun(u) == |digits| > 0 && u[..|digits|] == digits
    ensures var v := if t[0] == '-' then 0 - Value(digits) else Value(digits);
            Parse(s, lo, hi) == if lo <= v <= hi then Some(v) else None
  {
  }

  /** A number is read past white space, with its sign, up to the first character that is no digit; it
      must be in range. */
  lemma ParseReads(space: Bytes, sign: Bytes, digits: Bytes, rest: Bytes, lo: int, hi: int)
    requires forall i :: 0 <= i < |space| ==> space[i] in " \t\n\U{0B}\U{0C}\r"
    requires (sign == "" || sign == "+" || sign == "-") && digits != "" && AllDigits(digits)
    requires rest != "" ==> !IsDigit(rest[0])
    ensures var v := if sign == "-" then 0 - Value(digits) else Value(digits);
            Parse(space + (sign + (digits + rest)), lo, hi) == if lo <= v <= hi then Some(v) else None
  {
    assert IsDigit(digits[0]);
    SignedRead(sign, digits, rest);
    SpaceSkipped(space, sign + (digits + rest));
    RunOf(digits, rest);
    ParseSteps(space + (sign + (digits + rest)), sign + (digits + rest), digits + rest, digits, lo, hi);
  }

  /** Where no digit follows, it throws. */
  lemma ParseFails(space: Bytes, sign: Bytes, rest: Bytes, lo: int, hi: int)
    requires forall i :: 0 <= i < |space| ==> space[i] in " \t\n\U{0B}\U{0C}\r"
    requires (sign == "" || sign == "+" || sign == "-") && rest != "" && !IsDigit(rest[0])
    requires sign == "" ==> rest[0] !in " \t\n\U{0B}\U{0C}\r+-"
    ensures Parse(space + (sign + rest), lo, hi) == None
  {
    var t := sign + rest;
    assert t[0] == if sign == "" then rest[0] else sign[0];
    SpaceSkipped(space, t);
    assert sign == "" ==> t == rest;
    assert sign != "" ==> t[1..] == rest;
  }

  /** Reading back a printed number gives the number, when it is in range, and throws when not. */
  lemma ParseOfToString(n: int, lo: int, hi: int)
    ensures Parse(ToString(n), lo, hi) == if lo <= n <= hi then Some(n) else None
  {
    var digits := NatToString(if n < 0 then -n else n);
    ValueOfNat(if n < 0 then -n else n);
    DigitRunAll(digits);
    assert IsDigit(digits[0]);
    assert digits[..|digits|] == digits;
    if n < 0 {
      assert ToString(n)[1..] == digits;
    }
  }

  lemma StoiOfToString(n: int)
    requires INT_MIN <= n <= INT_MAX
    ensures Stoi(ToString(n)) == Some(n)
  {
    ParseOfToString(n, INT_MIN, INT_MAX);
  }

  lemma NumberIsClean(n: int)
    ensures forall i :: 0 <= i < |ToString(n)| ==> ToString(n)[i] == '-' || IsDigit(ToString(n)[i])
  {
  }
}

module Option {
  datatype Option<+T> = None | Some(value: T) {
    function GetOr(default: T): T {
      if Some? then value else default
    }
  }
}
