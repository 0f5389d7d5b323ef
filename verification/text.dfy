/**
 * Character classes and string helpers with the meaning JavaScript gives them:
 * `\s` / `String.prototype.trim` whitespace, `\d`, hexadecimal digits,
 * `String.prototype.includes` and `parseInt` on a digit string.
 */
module Text {

  /** JavaScript WhiteSpace and LineTerminator code points: the set `\s` matches and `trim` removes. */
  predicate IsWs(c: char) {
    || c == ' ' || c == '\t' || c == '\n' || c == '\r'
    || c as int == 0x0B || c as int == 0x0C || c as int == 0xA0
    || c as int == 0x1680 || (0x2000 <= c as int <= 0x200A)
    || c as int == 0x2028 || c as int == 0x2029 || c as int == 0x202F
    || c as int == 0x205F || c as int == 0x3000 || c as int == 0xFEFF
  }

  /** `\d`: ASCII decimal digits only. */
  predicate IsDigit(c: char) {
    '0' <= c <= '9'
  }

  /** `[0-9A-Fa-f]` */
  predicate IsHexDigit(c: char) {
    IsDigit(c) || 'A' <= c <= 'F' || 'a' <= c <= 'f'
  }

  predicate AllWs(s: string) {
    forall i :: 0 <= i < |s| ==> IsWs(s[i])
  }

  predicate AllDigits(s: string) {
    forall i :: 0 <= i < |s| ==> IsDigit(s[i])
  }

  /** The first index at or after `i` that does not hold whitespace, or `|s|`. */
  function SkipWs(s: string, i: nat): (j: nat)
    requires i <= |s|
    ensures i <= j <= |s|
    ensures forall k :: i <= k < j ==> IsWs(s[k])
    ensures j == |s| || !IsWs(s[j])
    decreases |s| - i
  {
    if i < |s| && IsWs(s[i]) then SkipWs(s, i + 1) else i
  }

  /** The end of `s[lo..hi]` once trailing whitespace is dropped: every index in `[j, hi)` holds whitespace, and `s[j - 1]` does not. */
  function BackWs(s: string, lo: nat, hi: nat): (j: nat)
    requires lo <= hi <= |s|
    ensures lo <= j <= hi
    ensures forall k :: j <= k < hi ==> IsWs(s[k])
    ensures j == lo || !IsWs(s[j - 1])
    decreases hi
  {
    if hi > lo && IsWs(s[hi - 1]) then BackWs(s, lo, hi - 1) else hi
  }

  /**
   * `String.prototype.trim`: the input with its whitespace margins removed.
   * The result is a contiguous slice of the input, everything cut away is
   * whitespace, and the result neither starts nor ends with whitespace.
   */
  function Trim(s: string): (r: string)
    ensures exists i :: 0 <= i <= |s| - |r| && r == s[i..i + |r|] && AllWs(s[..i]) && AllWs(s[i + |r|..])
    ensures r == [] || (!IsWs(r[0]) && !IsWs(r[|r| - 1]))
  {
    var i := SkipWs(s, 0);
    var j := BackWs(s, i, |s|);
    var r := s[i..j];
    WsMargins(s, i, j);
    assert r == s[i..i + |r|];
    assert r != [] ==> r[0] == s[i] && r[|r| - 1] == s[j - 1];
    r
  }

  /** Whitespace below `i` and from `j` on makes both margins of `s[i..j]` whitespace strings. */
  lemma WsMargins(s: string, i: nat, j: nat)
    requires i <= j <= |s|
    requires forall k :: 0 <= k < i ==> IsWs(s[k])
    requires forall k :: j <= k < |s| ==> IsWs(s[k])
    ensures AllWs(s[..i]) && AllWs(s[j..])
  {
  }

  /** A string trims to nothing exactly when it is all whitespace. */
  lemma TrimEmptyIffAllWs(s: string)
    ensures Trim(s) == [] <==> AllWs(s)
  {
    var r := Trim(s);
    var i :| 0 <= i <= |s| - |r| && r == s[i..i + |r|] && AllWs(s[..i]) && AllWs(s[i + |r|..]);
    if r == [] {
      forall k | 0 <= k < |s| ensures IsWs(s[k]) {
        if k < i { assert s[..i][k] == s[k]; } else { assert s[i..][k - i] == s[k]; }
      }
    } else {
      assert s[i] == r[0];
    }
  }

  /** Trimming twice is trimming once. */
  lemma TrimIdempotent(s: string)
    ensures Trim(Trim(s)) == Trim(s)
  {
    var r := Trim(s);
    var t := Trim(r);
    var i :| 0 <= i <= |r| - |t| && t == r[i..i + |t|] && AllWs(r[..i]) && AllWs(r[i + |t|..]);
    if r != [] {
      assert !IsWs(r[0]) && !IsWs(r[|r| - 1]);
    }
  }

  /** `t` occurs in `s` starting at index `i`. */
  predicate OccursAt(s: string, t: string, i: nat) {
    i + |t| <= |s| && s[i..i + |t|] == t
  }

  /** `String.prototype.includes`: true exactly when `t` occurs somewhere in `s`. */
  function Includes(s: string, t: string): (b: bool)
    ensures b <==> exists i: nat :: OccursAt(s, t, i)
    decreases |s|
  {
    if |t| > |s| then false
    else if s[..|t|] == t then
      assert OccursAt(s, t, 0);
      true
    else
      OccursShift(s, t);
      Includes(s[1..], t)
  }

  /** When `t` is not at the front of `s`, its occurrences are those in `s[1..]`, shifted by one. */
  lemma OccursShift(s: string, t: string)
    requires |t| <= |s| && !OccursAt(s, t, 0)
    ensures (exists i: nat :: OccursAt(s, t, i)) <==> (exists i: nat :: OccursAt(s[1..], t, i))
  {
    if i: nat :| OccursAt(s, t, i) {
      assert i > 0;
      assert s[1..][i - 1..i - 1 + |t|] == s[i..i + |t|];
      assert OccursAt(s[1..], t, i - 1);
    }
    if i: nat :| OccursAt(s[1..], t, i) {
      assert s[1..][i..i + |t|] == s[i + 1..i + 1 + |t|];
      assert OccursAt(s, t, i + 1);
    }
  }

  /** `parseInt` of a string of decimal digits: its value, leading zeros allowed. */
  function DigitsValue(ds: string): (n: nat)
    requires AllDigits(ds)
    decreases |ds|
  {
    if ds == [] then 0
    else DigitsValue(ds[..|ds| - 1]) * 10 + (ds[|ds| - 1] as int - '0' as int)
  }

  /** The decimal numeral of `n`, without leading zeros. */
  function Decimal(n: nat): (ds: string)
    decreases n
  {
    var last := [('0' as int + n % 10) as char];
    if n < 10 then last else Decimal(n / 10) + last
  }

  /** `parseInt` reads the numeral of `n` back as `n`. */
  lemma {:induction false} DecimalValue(n: nat)
    ensures |Decimal(n)| > 0 && AllDigits(Decimal(n)) && DigitsValue(Decimal(n)) == n
    decreases n
  {
    var last := [('0' as int + n % 10) as char];
    if n >= 10 {
      var front := Decimal(n / 10);
      DecimalValue(n / 10);
      assert (front + last)[..|front|] == front;
    }
  }

  /** A string that is the numeral of `n` is a digit string that `parseInt` reads as `n`. */
  lemma NumeralValue(ds: string, n: nat)
    requires Decimal(n) == ds
    ensures |ds| > 0 && AllDigits(ds) && DigitsValue(ds) == n
  {
    DecimalValue(n);
  }

  /** Appending a digit multiplies the value by ten and adds the digit. */
  lemma DigitsValueSnoc(ds: string, c: char)
    requires AllDigits(ds) && IsDigit(c)
    ensures AllDigits(ds + [c]) && DigitsValue(ds + [c]) == DigitsValue(ds) * 10 + (c as int - '0' as int)
  {
    assert (ds + [c])[..|ds|] == ds;
  }

  /** A numeral whose first digit is not zero has a positive value. */
  lemma {:induction false} NoLeadingZeroPositive(ds: string)
    requires |ds| > 0 && AllDigits(ds) && ds[0] != '0'
    ensures DigitsValue(ds) > 0
    decreases |ds|
  {
    if |ds| > 1 {
      NoLeadingZeroPositive(ds[..|ds| - 1]);
    }
  }

  /**
   * The other half of the round trip: a numeral without leading zeros is the
   * numeral `Decimal` writes for the value `parseInt` reads from it.
   */
  lemma {:induction false} DecimalOfDigits(ds: string)
    requires |ds| > 0 && AllDigits(ds) && (ds[0] != '0' || |ds| == 1)
    ensures Decimal(DigitsValue(ds)) == ds
    decreases |ds|
  {
    var front := ds[..|ds| - 1];
    if |ds| > 1 {
      NoLeadingZeroPositive(front);
      DecimalOfDigits(front);
      DecimalValue(DigitsValue(front));
      assert ds == front + [ds[|ds| - 1]];
    }
  }

  function Pow10(k: nat): (p: nat)
    ensures p > 0
  {
    if k == 0 then 1 else 10 * Pow10(k - 1)
  }

  /** The value of two digit strings written one after the other: the first is shifted by the length of the second. */
  lemma {:induction false} DigitsValueAppend(a: string, b: string)
    requires AllDigits(a) && AllDigits(b)
    ensures AllDigits(a + b) && DigitsValue(a + b) == DigitsValue(a) * Pow10(|b|) + DigitsValue(b)
    decreases |b|
  {
    if b == [] {
      assert a + b == a;
    } else {
      var b' := b[..|b| - 1];
      var c := b[|b| - 1];
      DigitsValueAppend(a, b');
      assert a + b == (a + b') + [c];
      DigitsValueSnoc(a + b', c);
      DigitsValueSnoc(b', c);
      assert b == b' + [c];
    }
  }

  /** Leading zeros do not change the value `parseInt` gives. */
  lemma {:induction false} LeadingZeroValue(ds: string)
    requires AllDigits(ds)
    ensures AllDigits("0" + ds) && DigitsValue("0" + ds) == DigitsValue(ds)
    decreases |ds|
  {
    var z := "0" + ds;
    if ds != [] {
      assert z[..|z| - 1] == "0" + ds[..|ds| - 1];
      LeadingZeroValue(ds[..|ds| - 1]);
    }
  }

  /**
   * Upper-casing of one code point, as far as it can produce an ASCII letter:
   * ASCII `a`-`z`, plus U+0131 (dotless i, upper case `I`) and U+017F (long s,
   * upper case `S`), the only other code points whose JavaScript upper case is a
   * single ASCII letter. Every other code point is left as it is.
   */
  function UpperChar(c: char): (u: char)
  {
    if 'a' <= c <= 'z' then (c as int - 32) as char
    else if c as int == 0x131 then 'I'
    else if c as int == 0x17F then 'S'
    else c
  }

  function Upper(s: string): (u: string)
    ensures |u| == |s|
    ensures forall i :: 0 <= i < |s| ==> u[i] == UpperChar(s[i])
  {
    seq(|s|, i requires 0 <= i < |s| => UpperChar(s[i]))
  }

  /** A word of upper-case ASCII letters. */
  predicate AllUpperLetters(w: string) {
    forall i :: 0 <= i < |w| ==> 'A' <= w[i] <= 'Z'
  }

  /**
   * The characters JavaScript upper-cases to the ASCII capital `w`: `w`
   * itself, its lower-case letter, and the dotless i for `I` and the long s
   * for `S`.
   */
  predicate CaseFormOf(c: char, w: char) {
    || c == w
    || c as int == w as int + 32
    || (w == 'I' && c as int == 0x131)
    || (w == 'S' && c as int == 0x17F)
  }

  /** A character upper-cases to a capital exactly when it is one of that capital's case forms. */
  lemma UpperCharToCapital(c: char, w: char)
    requires 'A' <= w <= 'Z'
    ensures UpperChar(c) == w <==> CaseFormOf(c, w)
  {
  }

  /**
   * A string upper-cases to a word of capitals exactly when it spells that
   * word letter by letter, each letter in either case.
   */
  lemma UpperToWord(s: string, w: string)
    requires AllUpperLetters(w)
    ensures Upper(s) == w <==> |s| == |w| && forall i :: 0 <= i < |s| ==> CaseFormOf(s[i], w[i])
  {
    if |s| == |w| {
      forall i | 0 <= i < |s|
        ensures Upper(s)[i] == w[i] <==> CaseFormOf(s[i], w[i])
      {
        UpperCharToCapital(s[i], w[i]);
      }
      if forall i :: 0 <= i < |s| ==> CaseFormOf(s[i], w[i]) {
        assert Upper(s) == w;
      }
    }
  }
}
