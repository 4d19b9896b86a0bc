/** The card-number check: the loop of `luhnValid` against a checksum defined on the digits, and what it detects. */
module Luhn {
  import opened Prelude

  function DigitOf(c: char): (d: nat)
    requires IsDigit(c)
    ensures d <= 9
  {
    (c - '0') as nat
  }

  /** The digits of a string; everything else is ignored. */
  function Digits(s: string): (d: seq<nat>)
    ensures forall i | 0 <= i < |d| :: d[i] <= 9
  {
    if s == "" then []
    else Digits(s[..|s| - 1]) + (if IsDigit(Last(s)) then [DigitOf(Last(s))] else [])
  }

  /** A digit's share of the checksum: plain, or the digit sum of its double. */
  function Share(d: nat, doubled: bool): nat {
    if !doubled then d else if 2 * d > 9 then (2 * d) / 10 + (2 * d) % 10 else 2 * d
  }

  predicate Even(n: nat) { n == 0 || !Even(n - 1) }

  /** Doubling a digit and subtracting nine from what exceeds nine is the digit sum of the double. */
  lemma ShareIsDigitSum(d: nat)
    requires d <= 9
    ensures Share(d, true) == if d > 4 then 2 * d - 9 else 2 * d
  {
  }

  /** The checksum: every second digit is doubled, counted from the right. */
  function Checksum(d: seq<nat>): nat {
    if d == [] then 0 else Share(d[0], Even(|d|)) + Checksum(d[1..])
  }

  predicate Valid(s: string) {
    13 <= |Digits(s)| <= 19 && Checksum(Digits(s)) % 10 == 0
  }

  lemma {:induction false} ChecksumSuffix(d: seq<nat>, i: nat)
    requires i < |d|
    ensures Checksum(d[i..]) == Share(d[i], Even(|d| - i)) + Checksum(d[i + 1..])
  {
    assert d[i..][1..] == d[i + 1..];
  }

  // ---- which digits are doubled ----

  function DigitSum(n: nat): nat
    requires n < 100
  {
    n / 10 + n % 10
  }

  /** The last digit counts as it is, the one before it by the digits of its double, and so on to the left. */
  function FromRight(d: seq<nat>): nat
    requires forall i | 0 <= i < |d| :: d[i] <= 9
  {
    if d == [] then 0
    else if |d| == 1 then d[0]
    else FromRight(d[..|d| - 2]) + DigitSum(2 * d[|d| - 2]) + d[|d| - 1]
  }

  lemma {:induction false} ChecksumAppendTwo(d: seq<nat>, x: nat, y: nat)
    requires x <= 9 && y <= 9 && forall i | 0 <= i < |d| :: d[i] <= 9
    ensures Checksum(d + [x, y]) == Checksum(d) + DigitSum(2 * x) + y
  {
    if d == [] {
      assert d + [x, y] == [x, y] && [x, y][1..] == [y] && [y][1..] == [];
      assert Even(2) && !Even(1);
    } else {
      assert (d + [x, y])[1..] == d[1..] + [x, y];
      ChecksumAppendTwo(d[1..], x, y);
      assert Even(|d| + 2) == Even(|d|);
    }
  }

  lemma {:induction false} ChecksumFromRight(d: seq<nat>)
    requires forall i | 0 <= i < |d| :: d[i] <= 9
    ensures Checksum(d) == FromRight(d)
  {
    if |d| == 1 {
      assert d[1..] == [] && !Even(1);
    } else if |d| > 1 {
      ChecksumFromRight(d[..|d| - 2]);
      ChecksumAppendTwo(d[..|d| - 2], d[|d| - 2], d[|d| - 1]);
      assert d == d[..|d| - 2] + [d[|d| - 2], d[|d| - 1]];
    }
  }

  /** The walk from the right with an alternating flag. */
  method SumDigits(digits: seq<nat>) returns (sum: nat)
    requires forall i | 0 <= i < |digits| :: digits[i] <= 9
    ensures sum == Checksum(digits)
  {
    sum := 0;
    var alt := false;
    var i := |digits| - 1;
    while i >= 0
      invariant -1 <= i < |digits| && alt == Even(|digits| - i)
      invariant sum == Checksum(digits[i + 1..])
    {
      var d := digits[i];
      ShareIsDigitSum(d);
      ChecksumSuffix(digits, i);
      if alt {
        d := d * 2;
        if d > 9 { d := d - 9; }
      }
      sum := sum + d;
      alt := !alt;
      i := i - 1;
    }
    assert digits[0..] == digits;
  }

  /** `luhnValid`: collects the digits and adds them up. */
  method LuhnValid(s: string) returns (ok: bool)
    ensures ok == Valid(s)
  {
    var digits: seq<nat> := [];
    for k := 0 to |s|
      invariant digits == Digits(s[..k])
    {
      assert s[..k + 1][..k] == s[..k];
      if '0' <= s[k] <= '9' {
        digits := digits + [(s[k] - '0') as nat];
      }
    }
    assert s[..|s|] == s;
    if |digits| < 13 || |digits| > 19 { return false; }
    var sum := SumDigits(digits);
    ok := sum % 10 == 0;
  }

  /** A card number has 13 to 19 digits, and their sum, counted from the right, ends in zero. */
  lemma ValidExactly(s: string)
    ensures Valid(s) <==> 13 <= |Digits(s)| <= 19 && FromRight(Digits(s)) % 10 == 0
  {
    ChecksumFromRight(Digits(s));
  }

  // ---- separators ----

  lemma {:induction false} DigitsConcat(s: string, t: string)
    ensures Digits(s + t) == Digits(s) + Digits(t)
  {
    if t == "" {
      assert s + t == s;
    } else {
      assert (s + t)[..|s + t| - 1] == s + t[..|t| - 1];
      DigitsConcat(s, t[..|t| - 1]);
    }
  }

  lemma {:induction false} NoDigits(sep: string)
    requires forall i | 0 <= i < |sep| :: !IsDigit(sep[i])
    ensures Digits(sep) == []
  {
    if sep != "" { NoDigits(sep[..|sep| - 1]); }
  }

  /** Spaces, dashes and any other non-digits change nothing, wherever they are. */
  lemma {:induction false} SeparatorsIgnored(s: string, sep: string, t: string)
    requires forall i | 0 <= i < |sep| :: !IsDigit(sep[i])
    ensures Valid(s + sep + t) == Valid(s + t)
  {
    NoDigits(sep);
    DigitsConcat(s + sep, t);
    DigitsConcat(s, sep);
    DigitsConcat(s, t);
    assert Digits(s) + [] == Digits(s);
  }

  // ---- what the checksum detects ----

  lemma {:induction false} ChecksumUpdate(d: seq<nat>, i: nat, x: nat)
    requires i < |d|
    ensures Checksum(d[i := x]) + Share(d[i], Even(|d| - i)) == Checksum(d) + Share(x, Even(|d| - i))
  {
    if i == 0 {
      assert d[0 := x][1..] == d[1..];
    } else {
      assert d[i := x][1..] == d[1..][i - 1 := x];
      ChecksumUpdate(d[1..], i - 1, x);
    }
  }

  /** Two digits never contribute the same. */
  lemma ShareInjective(x: nat, y: nat, doubled: bool)
    requires x <= 9 && y <= 9 && x != y
    ensures Share(x, doubled) <= 9 && Share(y, doubled) <= 9 && Share(x, doubled) != Share(y, doubled)
  {
    ShareIsDigitSum(x);
    ShareIsDigitSum(y);
  }

  lemma ModShift(a: nat, b: nat, x: nat, y: nat)
    requires a + x == b + y && x <= 9 && y <= 9 && x != y && b % 10 == 0
    ensures a % 10 != 0
  {
  }

  lemma {:induction false} DigitsUpdate(s: string, k: nat, c: char)
    requires k < |s| && IsDigit(s[k]) && IsDigit(c)
    ensures |Digits(s[..k])| < |Digits(s)|
    ensures Digits(s)[|Digits(s[..k])|] == DigitOf(s[k])
    ensures Digits(s[k := c]) == Digits(s)[|Digits(s[..k])| := DigitOf(c)]
  {
    var a, b := s[..k], s[k + 1..];
    assert s == a + [s[k]] + b && s[k := c] == a + [c] + b;
    DigitsConcat(a + [s[k]], b);
    DigitsConcat(a, [s[k]]);
    DigitsConcat(a + [c], b);
    DigitsConcat(a, [c]);
    assert Digits([s[k]]) == [DigitOf(s[k])] && Digits([c]) == [DigitOf(c)];
  }

  /** Changing one digit of a valid number makes it invalid. */
  lemma {:induction false} SingleErrorDetected(s: string, k: nat, c: char)
    requires k < |s| && IsDigit(s[k]) && IsDigit(c) && c != s[k] && Valid(s)
    ensures !Valid(s[k := c])
  {
    DigitsUpdate(s, k, c);
    var d := Digits(s);
    var i := |Digits(s[..k])|;
    var doubled := Even(|d| - i);
    ChecksumUpdate(d, i, DigitOf(c));
    ShareInjective(d[i], DigitOf(c), doubled);
    ModShift(Checksum(d[i := DigitOf(c)]), Checksum(d), Share(d[i], doubled), Share(DigitOf(c), doubled));
  }

  /** Swapping neighbours changes their joint share, except for 0 and 9; never by as much as ten. */
  lemma SwapShares(x: nat, y: nat, doubled: bool)
    requires x <= 9 && y <= 9
    ensures var p, q := Share(x, doubled) + Share(y, !doubled), Share(y, doubled) + Share(x, !doubled);
            && -10 < p - q < 10
            && (p == q <==> x == y || {x, y} == {0, 9})
  {
    ShareIsDigitSum(x);
    ShareIsDigitSum(y);
    assert {x, y} == {0, 9} <==> (x == 0 && y == 9) || (x == 9 && y == 0) by {
      assert 0 in {x, y} <==> x == 0 || y == 0;
      assert 9 in {x, y} <==> x == 9 || y == 9;
    }
  }

  lemma {:induction false} ChecksumSwap(d: seq<nat>, i: nat)
    requires i + 1 < |d| && d[i] <= 9 && d[i + 1] <= 9
    ensures Checksum(d[i := d[i + 1]][i + 1 := d[i]]) % 10 == Checksum(d) % 10
            <==> d[i] == d[i + 1] || {d[i], d[i + 1]} == {0, 9}
  {
    var x, y := d[i], d[i + 1];
    var doubled := Even(|d| - i);
    ChecksumUpdate(d, i, y);
    ChecksumUpdate(d[i := y], i + 1, x);
    SwapShares(x, y, doubled);
    SmallDifference(Checksum(d), Checksum(d[i := y][i + 1 := x]));
  }

  lemma SmallDifference(a: nat, b: nat)
    requires -10 < a - b < 10
    ensures a % 10 == b % 10 <==> a == b
  {
  }

  /** A swap of adjacent digits, with any separators between them, is detected unless it is 0 with 9. */
  lemma {:induction false} SwapDetected(s: string, k: nat, m: nat)
    requires k < m < |s| && IsDigit(s[k]) && IsDigit(s[m]) && Valid(s)
    requires forall j | k < j < m :: !IsDigit(s[j])
    ensures Valid(s[k := s[m]][m := s[k]]) <==> s[k] == s[m] || {s[k], s[m]} == {'0', '9'}
  {
    var t := s[k := s[m]];
    var i := |Digits(s[..k])|;
    DigitsUpdate(s, k, s[m]);
    DigitsUpdate(t, m, s[k]);
    DigitsUpdate(s, m, s[m]);
    NeighbourIndex(s, k, m);
    NeighbourIndex(t, k, m);
    assert t[..k] == s[..k];
    ChecksumSwap(Digits(s), i);
  }

  lemma {:induction false} NeighbourIndex(s: string, k: nat, m: nat)
    requires k < m < |s| && IsDigit(s[k]) && IsDigit(s[m])
    requires forall j | k < j < m :: !IsDigit(s[j])
    ensures |Digits(s[..m])| == |Digits(s[..k])| + 1
  {
    var gap := s[k + 1..m];
    assert s[..m] == s[..k] + [s[k]] + gap;
    NoDigits(gap);
    DigitsConcat(s[..k] + [s[k]], gap);
    DigitsConcat(s[..k], [s[k]]);
  }
}
