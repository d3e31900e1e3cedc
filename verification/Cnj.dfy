/** CNJ process numbers: the check digits of Resolução CNJ 65/2008, Annex VIII (_cnj_checksum_valid
    in scripts/provider_live_smoke.py) and normalize_cnj in app/judit.py, for ASCII digits. */
module Cnj {
  import opened Wrappers
  import opened Text

  predicate IsDigit(c: char) {
    '0' <= c <= '9'
  }

  predicate AllDigits(s: string) {
    forall i :: 0 <= i < |s| ==> IsDigit(s[i])
  }

  // "".join(character for character in s if character.isdigit())
  function Digits(s: string): string {
    if s == [] then []
    else Digits(s[..|s| - 1]) + if IsDigit(s[|s| - 1]) then [s[|s| - 1]] else []
  }

  function DigitOf(c: char): int {
    c as int - '0' as int
  }

  // int(s)
  function Value(s: string): int {
    if s == [] then 0 else Value(s[..|s| - 1]) * 10 + DigitOf(s[|s| - 1])
  }

  predicate ChecksumValid(normalized: string) {
    var digits := Digits(normalized);
    |digits| == 20 && Value(digits[7..9]) == 98 - Value(digits[..7] + digits[9..] + "00") % 97
  }

  lemma DigitsAre(c: char)
    ensures IsDigit(c) <==> c in "0123456789"
    ensures IsDigit(c) ==> 0 <= DigitOf(c) < 10 && "0123456789"[DigitOf(c)] == c
  {
  }

  /* ---- One congruence ---- */

  // The number with its check digits at the end, as the annex writes it.
  function Reordered(digits: string): string
    requires |digits| == 20
  {
    digits[..7] + digits[9..] + digits[7..9]
  }

  lemma {:induction false} ValueTogether(a: string, b: string)
    ensures Value(a + b) == Value(a) * Pow10(|b|) + Value(b)
  {
    if b == [] {
      assert a + b == a;
    } else {
      var front := b[..|b| - 1];
      ValueTogether(a, front);
      assert (a + b)[..|a + b| - 1] == a + front;
      Regroup(Value(a), Pow10(|front|));
    }
  }

  lemma Regroup(a: int, b: int)
    ensures a * b * 10 == a * (10 * b)
  {
  }

  function Pow10(n: nat): int {
    if n == 0 then 1 else 10 * Pow10(n - 1)
  }

  lemma TwoDigits(s: string)
    requires |s| == 2 && AllDigits(s)
    ensures 0 <= Value(s) <= 99 && Value(s) == 10 * DigitOf(s[0]) + DigitOf(s[1])
  {
    assert s[..1][..0] == [];
    assert Value(s[..1]) == DigitOf(s[0]);
  }

  // The number is valid exactly when it leaves 1 modulo 97 and its check digits lie in 2 to 98.
  lemma ValidMeans(digits: string)
    requires |digits| == 20 && AllDigits(digits)
    ensures Digits(digits) == digits
    ensures ChecksumValid(digits) <==> Value(Reordered(digits)) % 97 == 1 && 2 <= Value(digits[7..9]) <= 98
  {
    DigitsOfDigits(digits);
    ChecksumMeans(digits[..7] + digits[9..], digits[7..9]);
  }

  lemma ChecksumMeans(base: string, check: string)
    requires |check| == 2 && AllDigits(check)
    ensures Value(check) == 98 - Value(base + "00") % 97 <==> Value(base + check) % 97 == 1 && 2 <= Value(check) <= 98
  {
    TwoDigits(check);
    ValueThenTwo(base, "00");
    ValueThenTwo(base, check);
    Congruent(Value(base) * 100, Value(check));
  }

  lemma ValueThenTwo(base: string, check: string)
    requires |check| == 2 && AllDigits(check)
    ensures Value(base + check) == Value(base) * 100 + Value(check) && (check == "00" ==> Value(check) == 0)
  {
    TwoDigits(check);
    ValueTogether(base, check);
    assert Pow10(2) == 100;
  }

  lemma {:induction false} DigitsOfDigits(s: string)
    requires AllDigits(s)
    ensures Digits(s) == s
  {
    if s != [] {
      DigitsOfDigits(s[..|s| - 1]);
    }
  }

  lemma Congruent(b: int, c: int)
    requires 0 <= c <= 99
    ensures c == 98 - b % 97 <==> (b + c) % 97 == 1 && 2 <= c <= 98
  {
  }

  /* ---- Arithmetic modulo 97 ---- */

  lemma CancelTen(x: int)
    requires (10 * x) % 97 == 0
    ensures x % 97 == 0
  {
    // 68 * 10 is 1 modulo 97.
    assert x == 68 * (10 * x) - 97 * (7 * x);
  }

  lemma {:induction false} CancelPow(x: int, k: nat)
    requires (x * Pow10(k)) % 97 == 0
    ensures x % 97 == 0
  {
    if k > 0 {
      Regroup(x, Pow10(k - 1));
      CancelTen(x * Pow10(k - 1));
      CancelPow(x, k - 1);
    }
  }

  // Each of 1 to 9 has an inverse.
  lemma CancelDigit(d: int, x: int)
    requires 1 <= d <= 9 && (d * x) % 97 == 0
    ensures x % 97 == 0
  {
    var inverse := if d == 1 then 1 else if d == 2 then 49 else if d == 3 then 65 else if d == 4 then 73
      else if d == 5 then 39 else if d == 6 then 81 else if d == 7 then 14 else if d == 8 then 85 else 54;
    assert (inverse * d) % 97 == 1;
    var q := inverse * d / 97;
    assert inverse * d == 97 * q + 1;
    Combine(inverse, d, x, q);
  }

  lemma Combine(i: int, d: int, x: int, q: int)
    requires i * d == 97 * q + 1 && (d * x) % 97 == 0
    ensures x % 97 == 0
  {
    var y := d * x / 97;
    assert d * x == 97 * y;
    assert i * (d * x) == (i * d) * x;
    assert (97 * q + 1) * x == 97 * (q * x) + x;
    assert i * (97 * y) == 97 * (i * y);
    assert x == 97 * (i * y - q * x);
  }

  lemma DifferenceMatters(a: int, b: int, x: int)
    requires 0 <= a <= 9 && 0 <= b <= 9 && a != b && ((a - b) * x) % 97 == 0
    ensures x % 97 == 0
  {
    if a > b {
      CancelDigit(a - b, x);
    } else {
      assert (b - a) * x == -((a - b) * x);
      CancelDigit(b - a, x);
    }
  }

  // 10 to the m-th modulo 97
  function Residue(m: nat): int {
    if m == 0 then 1 else (10 * Residue(m - 1)) % 97
  }

  lemma {:induction false} PowResidue(m: nat)
    ensures Pow10(m) % 97 == Residue(m)
  {
    if m > 0 {
      PowResidue(m - 1);
      TimesTen(Pow10(m - 1), Residue(m - 1));
    }
  }

  lemma TimesTen(p: int, r: int)
    requires p % 97 == r
    ensures (10 * p) % 97 == (10 * r) % 97
  {
    var q := p / 97;
    assert p == 97 * q + r;
    Shift(10 * q, 10 * r);
  }

  lemma Shift(q: int, x: int)
    ensures (97 * q + x) % 97 == x % 97
  {
  }

  function Power(m: nat): int
    requires m <= 19
  {
    match m
    case 0 => 1 case 1 => 10 case 2 => 3 case 3 => 30 case 4 => 9 case 5 => 90 case 6 => 27
    case 7 => 76 case 8 => 81 case 9 => 34 case 10 => 49 case 11 => 5 case 12 => 50 case 13 => 15
    case 14 => 53 case 15 => 45 case 16 => 62 case 17 => 38 case 18 => 89 case 19 => 17
  }

  lemma {:induction false} ResidueIsPower(m: nat)
    requires m <= 19
    ensures Residue(m) == Power(m)
  {
    if m > 0 {
      ResidueIsPower(m - 1);
      PowerStep(m, Residue(m - 1));
    }
  }

  lemma PowerStep(m: nat, r: int)
    requires 1 <= m <= 19 && r == Power(m - 1)
    ensures (10 * r) % 97 == Power(m)
  {
    match m - 1
    case 0 => assert r == 1;
    case 1 => assert r == 10;
    case 2 => assert r == 3;
    case 3 => assert r == 30;
    case 4 => assert r == 9;
    case 5 => assert r == 90;
    case 6 => assert r == 27;
    case 7 => assert r == 76;
    case 8 => assert r == 81;
    case 9 => assert r == 34;
    case 10 => assert r == 49;
    case 11 => assert r == 5;
    case 12 => assert r == 50;
    case 13 => assert r == 15;
    case 14 => assert r == 53;
    case 15 => assert r == 45;
    case 16 => assert r == 62;
    case 17 => assert r == 38;
    case 18 => assert r == 89;
  }

  // 10 does not come back to 1 within twenty places.
  lemma NoShortCycle(m: nat)
    requires 1 <= m <= 19
    ensures (Pow10(m) - 1) % 97 != 0
  {
    PowResidue(m);
    ResidueIsPower(m);
    NotOne(Pow10(m), Residue(m));
  }

  lemma NotOne(p: int, r: int)
    requires p % 97 == r && r != 1
    ensures (p - 1) % 97 != 0
  {
  }

  /* ---- Errors that are detected ---- */

  // What putting b for a adds to the value, k places from the end.
  function Delta(a: char, b: char, k: nat): int {
    (DigitOf(b) - DigitOf(a)) * Pow10(k)
  }

  lemma {:induction false} ValueWith(s: string, i: nat, c: char)
    requires i < |s|
    ensures Value(s[i := c]) == Value(s) + Delta(s[i], c, |s| - 1 - i)
  {
    var n := |s| - 1;
    if i < n {
      ValueWith(s[..n], i, c);
      assert s[i := c][..n] == s[..n][i := c];
      Regroup(DigitOf(c) - DigitOf(s[i]), Pow10(n - 1 - i));
    } else {
      assert s[i := c][..n] == s[..n];
    }
  }

  function Place(p: nat): nat
    requires p < 20
  {
    if p < 7 then p else if p < 9 then p + 11 else p - 2
  }

  lemma ReorderedWith(digits: string, p: nat, c: char)
    requires |digits| == 20 && p < 20
    ensures Reordered(digits)[Place(p)] == digits[p]
    ensures Reordered(digits[p := c]) == Reordered(digits)[Place(p) := c]
  {
  }

  lemma Congruence(a: int, b: int)
    requires a % 97 == 1 && b % 97 == 1
    ensures (b - a) % 97 == 0
  {
  }

  // Another digit takes the value out of its residue class.
  lemma ChangeShows(s: string, i: nat, c: char)
    requires AllDigits(s) && i < |s| && IsDigit(c) && c != s[i]
    ensures Value(s) % 97 == 1 ==> Value(s[i := c]) % 97 != 1
  {
    ValueWith(s, i, c);
    DifferenceShows(Value(s), DigitOf(c) - DigitOf(s[i]), |s| - 1 - i);
  }

  lemma DifferenceShows(v: int, d: int, k: nat)
    requires -9 <= d <= 9 && d != 0
    ensures v % 97 == 1 ==> (v + d * Pow10(k)) % 97 != 1
  {
    if v % 97 == 1 && (v + d * Pow10(k)) % 97 == 1 {
      Congruence(v, v + d * Pow10(k));
      CancelPow(d, k);
    }
  }

  // Every change of a single digit is detected.
  lemma DetectsOneDigit(digits: string, p: nat, c: char)
    requires |digits| == 20 && AllDigits(digits) && p < 20 && IsDigit(c) && c != digits[p]
    requires ChecksumValid(digits)
    ensures !ChecksumValid(digits[p := c])
  {
    ValidMeans(digits);
    ValidMeans(digits[p := c]);
    ReorderedWith(digits, p, c);
    ChangeShows(Reordered(digits), Place(p), c);
  }

  lemma PowSum(a: nat, b: nat)
    ensures Pow10(a + b) == Pow10(a) * Pow10(b)
  {
    if a > 0 {
      PowSum(a - 1, b);
      assert 10 * (Pow10(a - 1) * Pow10(b)) == (10 * Pow10(a - 1)) * Pow10(b);
    }
  }

  // What a swap adds to the value is never a multiple of 97.
  lemma SwapMatters(a: int, b: int, high: nat, low: nat)
    requires 0 <= a <= 9 && 0 <= b <= 9 && a != b && low < high <= 19
    ensures ((b - a) * Pow10(high) + (a - b) * Pow10(low)) % 97 != 0
  {
    var m := high - low;
    PowSum(m, low);
    Factor(a, b, Pow10(m), Pow10(low));
    ProductMatters(a, b, m, low);
  }

  lemma ProductMatters(a: int, b: int, m: nat, low: nat)
    requires 0 <= a <= 9 && 0 <= b <= 9 && a != b && 1 <= m <= 19
    ensures ((b - a) * (Pow10(m) - 1) * Pow10(low)) % 97 != 0
  {
    var x := Pow10(m) - 1;
    NoShortCycle(m);
    if ((b - a) * x * Pow10(low)) % 97 == 0 {
      CancelPow((b - a) * x, low);
      DifferenceMatters(b, a, x);
      assert false;
    }
  }

  lemma Factor(a: int, b: int, p: int, q: int)
    ensures (b - a) * (p * q) + (a - b) * q == (b - a) * (p - 1) * q
  {
  }

  lemma SwapValue(s: string, i: nat, j: nat)
    requires i < j < |s|
    ensures Value(s[i := s[j]][j := s[i]]) == Value(s) + (Delta(s[i], s[j], |s| - 1 - i) + Delta(s[j], s[i], |s| - 1 - j))
  {
    var once := s[i := s[j]];
    assert once[j] == s[j];
    ValueWith(s, i, s[j]);
    ValueWith(once, j, s[i]);
  }

  lemma DeltasMatter(a: char, b: char, high: nat, low: nat)
    requires IsDigit(a) && IsDigit(b) && a != b && low < high <= 19
    ensures (Delta(a, b, high) + Delta(b, a, low)) % 97 != 0
  {
    SwapMatters(DigitOf(a), DigitOf(b), high, low);
  }

  // A swap of two different digits takes the value out of its residue class.
  lemma SwapShows(s: string, i: nat, j: nat)
    requires |s| == 20 && AllDigits(s) && i < 20 && j < 20 && s[i] != s[j]
    ensures Value(s) % 97 == 1 ==> Value(Swapped(s, i, j)) % 97 != 1
  {
    if i < j {
      SwapInOrder(s, i, j);
    } else {
      SwapInOrder(s, j, i);
      assert Swapped(s, i, j) == Swapped(s, j, i);
    }
  }

  lemma SwapInOrder(s: string, i: nat, j: nat)
    requires |s| == 20 && AllDigits(s) && i < j < 20 && s[i] != s[j]
    ensures Value(s) % 97 == 1 ==> Value(Swapped(s, i, j)) % 97 != 1
  {
    SwapValue(s, i, j);
    DeltasMatter(s[i], s[j], 19 - i, 19 - j);
    Moved(Value(s), Delta(s[i], s[j], 19 - i) + Delta(s[j], s[i], 19 - j));
  }

  lemma Moved(v: int, d: int)
    requires d % 97 != 0
    ensures v % 97 == 1 ==> (v + d) % 97 != 1
  {
    if v % 97 == 1 && (v + d) % 97 == 1 {
      Congruence(v, v + d);
    }
  }

  function Swapped(s: string, p: nat, q: nat): string
    requires p < |s| && q < |s|
  {
    s[p := s[q]][q := s[p]]
  }

  lemma SwapAcross(digits: string, p: nat, q: nat)
    requires |digits| == 20 && p < 20 && q < 20 && p != q
    ensures Place(p) != Place(q)
    ensures Reordered(Swapped(digits, p, q)) == Swapped(Reordered(digits), Place(p), Place(q))
  {
    ReorderedWith(digits, p, digits[q]);
    ReorderedWith(digits, q, digits[p]);
    ReorderedWith(digits[p := digits[q]], q, digits[p]);
  }

  // Every swap of two different digits is detected, next to each other or not, in the number, among
  // the check digits or across them.
  lemma DetectsSwap(digits: string, p: nat, q: nat)
    requires |digits| == 20 && AllDigits(digits) && p < q < 20 && digits[p] != digits[q]
    requires ChecksumValid(digits)
    ensures !ChecksumValid(Swapped(digits, p, q))
  {
    var changed, r := Swapped(digits, p, q), Reordered(digits);
    ValidMeans(digits);
    ValidMeans(changed);
    SwapAcross(digits, p, q);
    ReorderedWith(digits, p, digits[p]);
    ReorderedWith(digits, q, digits[q]);
    SwapShows(r, Place(p), Place(q));
  }

  /* ---- normalize_cnj ---- */

  predicate IsPlain(s: string) {
    |s| == 20 && AllDigits(s)
  }

  predicate IsCanonical(s: string) {
    && |s| == 25 && AllDigits(s[..7]) && s[7] == '-' && AllDigits(s[8..10]) && s[10] == '.' && AllDigits(s[11..15])
    && s[15] == '.' && IsDigit(s[16]) && s[17] == '.' && AllDigits(s[18..20]) && s[20] == '.' && AllDigits(s[21..])
  }

  // A digit for every d, and everything else as it stands.
  predicate HasShape(s: string, shape: string) {
    |s| == |shape| && forall i :: 0 <= i < |s| ==> if shape[i] == 'd' then s[i] in "0123456789" else s[i] == shape[i]
  }

  lemma PartIsDigits(s: string, from: nat, to: nat)
    requires from <= to <= |s|
    ensures AllDigits(s[from..to]) <==> forall i :: from <= i < to ==> s[i] in "0123456789"
  {
    if AllDigits(s[from..to]) {
      forall i | from <= i < to ensures s[i] in "0123456789" {
        assert s[from..to][i - from] == s[i];
      }
    }
  }

  lemma PlainShape(s: string)
    ensures IsPlain(s) <==> HasShape(s, "dddddddddddddddddddd")
  {
    assert forall i :: 0 <= i < 20 ==> "dddddddddddddddddddd"[i] == 'd';
  }

  lemma ShapeIs(i: nat)
    requires i < 25
    ensures "ddddddd-dd.dddd.d.dd.dddd"[i] == if i == 7 then '-' else if i in {10, 15, 17, 20} then '.' else 'd'
  {
  }

  lemma CanonicalShape(s: string)
    requires |s| == 25
    ensures HasShape(s, "ddddddd-dd.dddd.d.dd.dddd") <==>
      && (forall i :: 0 <= i < 25 && i !in {7, 10, 15, 17, 20} ==> s[i] in "0123456789")
      && s[7] == '-' && s[10] == '.' && s[15] == '.' && s[17] == '.' && s[20] == '.'
  {
    forall i | 0 <= i < 25
      ensures "ddddddd-dd.dddd.d.dd.dddd"[i] == if i == 7 then '-' else if i in {10, 15, 17, 20} then '.' else 'd'
    {
      ShapeIs(i);
    }
  }

  // The two notations.
  lemma ShapesAre(s: string)
    ensures IsPlain(s) <==> HasShape(s, "dddddddddddddddddddd")
    ensures IsCanonical(s) <==> HasShape(s, "ddddddd-dd.dddd.d.dd.dddd")
  {
    PlainShape(s);
    if |s| == 25 {
      CanonicalShape(s);
      PartIsDigits(s, 0, 7);
      PartIsDigits(s, 8, 10);
      PartIsDigits(s, 11, 15);
      PartIsDigits(s, 18, 20);
      PartIsDigits(s, 21, 25);
      assert s[0..7] == s[..7] && s[21..25] == s[21..];
    }
  }

  function Format(d: string): string
    requires |d| == 20
  {
    d[..7] + "-" + d[7..9] + "." + d[9..13] + "." + [d[13]] + "." + d[14..16] + "." + d[16..]
  }

  function Normalize(value: string): Result<string> {
    var candidate := Strip(value);
    if IsPlain(candidate) then
      DigitsOfDigits(candidate);
      Ok(Format(Digits(candidate)))
    else if IsCanonical(candidate) then
      DigitsOfCanonical(candidate);
      Ok(Format(Digits(candidate)))
    else Err("invalid CNJ process code")
  }

  lemma {:induction false} DigitsTogether(a: string, b: string)
    ensures Digits(a + b) == Digits(a) + Digits(b)
  {
    if b == [] {
      assert a + b == a;
    } else {
      DigitsTogether(a, b[..|b| - 1]);
      assert (a + b)[..|a + b| - 1] == a + b[..|b| - 1];
    }
  }

  // Digits, a character that is none, and more.
  lemma DigitsThen(a: string, c: char, b: string)
    requires AllDigits(a) && !IsDigit(c)
    ensures Digits(a + [c] + b) == a + Digits(b)
  {
    DigitsTogether(a + [c], b);
    DigitsTogether(a, [c]);
    DigitsOfDigits(a);
    assert Digits([c]) == [] by {
      assert [c][..0] == [];
    }
    assert a + [] == a;
  }

  lemma DigitsOfCanonical(s: string)
    requires IsCanonical(s)
    ensures AllDigits(Digits(s)) && |Digits(s)| == 20 && Format(Digits(s)) == s
  {
    PartsOfCanonical(s);
    var d := Digits(s);
    assert d[..7] == s[..7] && d[7..9] == s[8..10] && d[9..13] == s[11..15] && d[13] == s[16] && d[14..16] == s[18..20];
    assert d[16..] == s[21..];
  }

  lemma PartsOfCanonical(s: string)
    requires IsCanonical(s)
    ensures Digits(s) == s[..7] + s[8..10] + s[11..15] + s[16..17] + s[18..20] + s[21..]
  {
    DigitsUpTo(s, 0, 7);
    DigitsUpTo(s, 8, 10);
    LastParts(s);
    assert s[0..] == s;
  }

  lemma LastParts(s: string)
    requires IsCanonical(s)
    ensures Digits(s[11..]) == s[11..15] + s[16..17] + s[18..20] + s[21..]
  {
    DigitsUpTo(s, 11, 15);
    DigitsUpTo(s, 16, 17);
    DigitsUpTo(s, 18, 20);
    DigitsOfDigits(s[21..]);
  }

  lemma DigitsUpTo(s: string, from: nat, to: nat)
    requires from <= to < |s| && AllDigits(s[from..to]) && !IsDigit(s[to])
    ensures Digits(s[from..]) == s[from..to] + Digits(s[to + 1..])
  {
    assert s[from..] == s[from..to] + [s[to]] + s[to + 1..];
    DigitsThen(s[from..to], s[to], s[to + 1..]);
  }

  lemma NormalForms(d: string)
    requires |d| == 20 && AllDigits(d)
    ensures IsCanonical(Format(d)) && Strip(Format(d)) == Format(d) && Digits(Format(d)) == d
  {
    var s := Format(d);
    FormatIsCanonical(d);
    assert IsDigit(s[0]) && IsDigit(s[21..][3]);
    StripOfTrimmed(s);
    PartsOfCanonical(s);
    assert d == s[..7] + s[8..10] + s[11..15] + s[16..17] + s[18..20] + s[21..];
  }

  lemma FormatIsCanonical(d: string)
    requires |d| == 20 && AllDigits(d)
    ensures var s := Format(d);
      && |s| == 25 && s[..7] == d[..7] && s[8..10] == d[7..9] && s[11..15] == d[9..13] && s[16..17] == [d[13]]
      && s[18..20] == d[14..16] && s[21..] == d[16..]
    ensures IsCanonical(Format(d))
  {
    FormatParts(d);
  }

  lemma FormatParts(d: string)
    requires |d| == 20
    ensures var s := Format(d);
      && |s| == 25 && s[..7] == d[..7] && s[8..10] == d[7..9] && s[11..15] == d[9..13] && s[16..17] == [d[13]]
      && s[18..20] == d[14..16] && s[21..] == d[16..]
      && s[7] == '-' && s[10] == '.' && s[15] == '.' && s[16] == d[13] && s[17] == '.' && s[20] == '.'
  {
  }

  lemma {:induction false} StripLeftKeepsDigits(s: string)
    ensures Digits(StripLeft(s)) == Digits(s)
  {
    if s != [] && IsSpace(s[0]) {
      StripLeftKeepsDigits(s[1..]);
      assert s == [s[0]] + s[1..];
      DigitsTogether([s[0]], s[1..]);
      assert [s[0]][..0] == [];
      assert [] + Digits(s[1..]) == Digits(s[1..]);
    }
  }

  lemma {:induction false} StripRightKeepsDigits(s: string)
    ensures Digits(StripRight(s)) == Digits(s)
  {
    if s != [] && IsSpace(s[|s| - 1]) {
      StripRightKeepsDigits(s[..|s| - 1]);
    }
  }

  // The result is canonical, has the digits of the value and is its own result; exactly the twenty
  // digits in either notation are accepted.
  lemma NormalizeMeans(value: string)
    ensures Normalize(value).Ok? <==> IsPlain(Strip(value)) || IsCanonical(Strip(value))
    ensures Normalize(value).Ok? ==>
      var n := Normalize(value).value;
      IsCanonical(n) && Digits(n) == Digits(value) && Normalize(n) == Ok(n)
  {
    var candidate := Strip(value);
    if IsPlain(candidate) || IsCanonical(candidate) {
      if IsPlain(candidate) {
        DigitsOfDigits(candidate);
      } else {
        DigitsOfCanonical(candidate);
      }
      StripLeftKeepsDigits(value);
      StripRightKeepsDigits(StripLeft(value));
      NormalForms(Digits(candidate));
      DigitsOfCanonical(Format(Digits(candidate)));
    }
  }

  // Two values have one normal form exactly when they have the same digits.
  lemma SameNumber(a: string, b: string)
    requires Normalize(a).Ok? && Normalize(b).Ok?
    ensures Normalize(a) == Normalize(b) <==> Digits(a) == Digits(b)
  {
    NormalizeMeans(a);
    NormalizeMeans(b);
    StripLeftKeepsDigits(a);
    StripLeftKeepsDigits(b);
    StripRightKeepsDigits(StripLeft(a));
    StripRightKeepsDigits(StripLeft(b));
  }
}
