/** Strings as the Python code builds and reads them: decimals, zero padding, `strip`, `lower`, `replace`. */
module Text {

  predicate IsDigit(c: char) {
    '0' <= c <= '9'
  }

  predicate AllDigits(s: string) {
    forall i | 0 <= i < |s| :: IsDigit(s[i])
  }

  function DigitChar(d: nat): char
    requires d < 10
  {
    ('0' as int + d) as char
  }

  /** Decimal text of a number, without leading zeros. */
  function Digits(n: nat): (s: string)
    ensures s != "" && AllDigits(s)
  {
    if n < 10 then [DigitChar(n)] else Digits(n / 10) + [DigitChar(n % 10)]
  }

  function ParseNat(s: string): nat
    requires AllDigits(s)
  {
    if s == "" then 0 else 10 * ParseNat(s[..|s| - 1]) + (s[|s| - 1] as int - '0' as int)
  }

  lemma {:induction false} ParseDigits(n: nat)
    ensures ParseNat(Digits(n)) == n
  {
    if n >= 10 {
      ParseDigits(n / 10);
      assert Digits(n)[..|Digits(n)| - 1] == Digits(n / 10);
    }
  }

  function Zeros(k: nat): (s: string)
    ensures |s| == k && forall i | 0 <= i < k :: s[i] == '0'
  {
    seq(k, _ => '0')
  }

  /** `f"{n:0{width}d}"` for a natural number. */
  function ZeroPadded(n: nat, width: nat): (s: string)
    ensures s != "" && AllDigits(s)
  {
    if |Digits(n)| >= width then Digits(n) else Zeros(width - |Digits(n)|) + Digits(n)
  }

  lemma {:induction false} LeadingZeros(k: nat, s: string)
    requires AllDigits(s)
    ensures AllDigits(Zeros(k) + s) && ParseNat(Zeros(k) + s) == ParseNat(s)
    decreases |s|, k
  {
    var z := Zeros(k) + s;
    if s != "" {
      LeadingZeros(k, s[..|s| - 1]);
      assert z[..|z| - 1] == Zeros(k) + s[..|s| - 1];
    } else if k > 0 {
      LeadingZeros(k - 1, s);
      assert z[..|z| - 1] == Zeros(k - 1) + s;
    }
  }

  lemma ParsePadded(n: nat, width: nat)
    ensures ParseNat(ZeroPadded(n, width)) == n
  {
    ParseDigits(n);
    if |Digits(n)| < width {
      LeadingZeros(width - |Digits(n)|, Digits(n));
    }
  }

  lemma {:induction false} FourDigits(n: nat)
    requires 1000 <= n <= 9999
    ensures |Digits(n)| == 4
  {
    var tens := n / 10;
    var hundreds := tens / 10;
    var thousands := hundreds / 10;
    assert 1 <= thousands <= 9 && |Digits(thousands)| == 1;
    assert |Digits(hundreds)| == 2 && |Digits(tens)| == 3;
  }

  /** Length of the longest suffix made of digits. */
  function DigitTail(s: string): (k: nat)
    ensures k <= |s|
  {
    if s == "" || !IsDigit(s[|s| - 1]) then 0 else 1 + DigitTail(s[..|s| - 1])
  }

  lemma {:induction false} DigitTailStops(front: string, digits: string)
    requires AllDigits(digits) && (front == "" || !IsDigit(front[|front| - 1]))
    ensures DigitTail(front + digits) == |digits|
    decreases |digits|
  {
    var s := front + digits;
    if digits == "" {
      assert s == front;
    } else {
      assert s[..|s| - 1] == front + digits[..|digits| - 1];
      DigitTailStops(front, digits[..|digits| - 1]);
    }
  }

  /** What `strip` removes. */
  predicate IsSpace(c: char) {
    var u := c as int;
    || 9 <= u <= 13 || 28 <= u <= 32 || 0x2000 <= u <= 0x200A
    || u in {0x85, 0xA0, 0x1680, 0x2028, 0x2029, 0x202F, 0x205F, 0x3000}
  }

  /** The characters that count as spaces. */
  lemma SpaceTable(c: char)
    ensures IsSpace(c) <==>
            || c in "\t\n\r \U{000B}\U{000C}\U{001C}\U{001D}\U{001E}\U{001F}\U{0085}\U{00A0}"
            || c in "\U{1680}\U{2000}\U{2001}\U{2002}\U{2003}\U{2004}\U{2005}\U{2006}\U{2007}\U{2008}"
            || c in "\U{2009}\U{200A}\U{2028}\U{2029}\U{202F}\U{205F}\U{3000}"
  {
  }

  predicate AllSpace(s: string) {
    forall i | 0 <= i < |s| :: IsSpace(s[i])
  }

  /** Neither end is a space. */
  predicate Trimmed(s: string) {
    s == "" || (!IsSpace(s[0]) && !IsSpace(s[|s| - 1]))
  }

  function StripLeft(s: string): (r: string)
    ensures |r| <= |s| && (r != "" ==> !IsSpace(r[0]))
  {
    if s != "" && IsSpace(s[0]) then StripLeft(s[1..]) else s
  }

  function StripRight(s: string): (r: string)
    ensures r <= s && (r != "" ==> !IsSpace(r[|r| - 1]))
  {
    if s != "" && IsSpace(s[|s| - 1]) then StripRight(s[..|s| - 1]) else s
  }

  function Strip(s: string): string {
    StripRight(StripLeft(s))
  }

  lemma {:induction false} StripLeftIs(a: string, s: string)
    requires AllSpace(a) && (s == "" || !IsSpace(s[0]))
    ensures StripLeft(a + s) == s
  {
    if a == "" {
      assert a + s == s;
    } else {
      assert (a + s)[1..] == a[1..] + s;
      StripLeftIs(a[1..], s);
    }
  }

  lemma {:induction false} StripRightIs(s: string, b: string)
    requires AllSpace(b) && (s == "" || !IsSpace(s[|s| - 1]))
    ensures StripRight(s + b) == s
  {
    if b == "" {
      assert s + b == s;
    } else {
      var n := |b| - 1;
      assert (s + b)[..|s + b| - 1] == s + b[..n];
      StripRightIs(s, b[..n]);
    }
  }

  /** Stripping finds the trimmed core between spaces. */
  lemma StripIs(a: string, core: string, b: string)
    requires AllSpace(a) && Trimmed(core) && AllSpace(b)
    ensures Strip(a + core + b) == core
  {
    if core == "" {
      StripLeftIs(a + b, "");
      assert a + core + b == (a + b) + "";
      StripRightIs("", "");
    } else {
      assert a + core + b == a + (core + b);
      StripLeftIs(a, core + b);
      StripRightIs(core, b);
    }
  }

  lemma {:induction false} LeftSplits(s: string) returns (a: string)
    ensures AllSpace(a) && s == a + StripLeft(s)
  {
    a := "";
    if s != "" && IsSpace(s[0]) {
      var rest := LeftSplits(s[1..]);
      a := [s[0]] + rest;
    }
  }

  lemma {:induction false} RightSplits(s: string) returns (b: string)
    ensures AllSpace(b) && s == StripRight(s) + b
  {
    b := "";
    if s != "" && IsSpace(s[|s| - 1]) {
      var rest := RightSplits(s[..|s| - 1]);
      b := rest + [s[|s| - 1]];
    }
  }

  /** Every text is its stripped core with spaces around it. */
  lemma StripSplits(s: string) returns (a: string, b: string)
    ensures AllSpace(a) && AllSpace(b) && Trimmed(Strip(s)) && s == a + Strip(s) + b
  {
    a := LeftSplits(s);
    b := RightSplits(StripLeft(s));
  }

  /** A text is blank exactly when nothing is left of it. */
  lemma BlankIff(s: string)
    ensures Strip(s) == "" <==> AllSpace(s)
  {
    var a, b := StripSplits(s);
    if AllSpace(s) {
      StripIs(s, "", "");
      assert s + "" + "" == s;
    }
  }

  function LowerChar(c: char): char {
    if 'A' <= c <= 'Z' then (c as int + 32) as char else c
  }

  function Lower(s: string): string {
    seq(|s|, i requires 0 <= i < |s| => LowerChar(s[i]))
  }

  /** The same character, or the two cases of one ASCII letter. */
  predicate SameLetter(c: char, d: char) {
    || c == d
    || ('A' <= c <= 'Z' && d as int - c as int == 32)
    || ('A' <= d <= 'Z' && c as int - d as int == 32)
  }

  /** Two texts are lowered to the same one exactly when they differ in the case of letters only. */
  lemma LowerIff(s: string, t: string)
    ensures Lower(s) == Lower(t) <==> |s| == |t| && forall i | 0 <= i < |s| :: SameLetter(s[i], t[i])
    ensures forall i | 0 <= i < |s| :: !('A' <= Lower(s)[i] <= 'Z')
  {
    if Lower(s) == Lower(t) {
      assert |Lower(s)| == |s| && |Lower(t)| == |t|;
      forall i | 0 <= i < |s| ensures SameLetter(s[i], t[i]) {
        assert Lower(s)[i] == Lower(t)[i];
      }
    }
  }

  lemma {:induction false} NoLeadingZero(n: nat)
    ensures Digits(n)[0] == '0' <==> n == 0
  {
    if n >= 10 {
      NoLeadingZero(n / 10);
    }
  }

  function Power10(k: nat): nat {
    if k == 0 then 1 else 10 * Power10(k - 1)
  }

  lemma {:induction false} DigitsShort(n: nat, k: nat)
    requires k > 0 && n < Power10(k)
    ensures |Digits(n)| <= k
    decreases k
  {
    if n >= 10 {
      DigitsShort(n / 10, k - 1);
    }
  }

  /** A number that fits is padded to exactly its width. */
  lemma {:induction false} PaddedLength(n: nat, width: nat)
    requires width > 0 && n < Power10(width)
    ensures |ZeroPadded(n, width)| == width
  {
    DigitsShort(n, width);
  }

  lemma {:induction false} ParseBound(s: string)
    requires AllDigits(s)
    ensures ParseNat(s) < Power10(|s|)
  {
    if s != "" {
      ParseBound(s[..|s| - 1]);
    }
  }

  /** Texts of digits of one length are equal when they read as the same number. */
  lemma {:induction false} ParseInjective(s: string, t: string)
    requires AllDigits(s) && AllDigits(t) && |s| == |t| && ParseNat(s) == ParseNat(t)
    ensures s == t
  {
    if s != "" {
      var n := |s| - 1;
      assert ParseNat(s) % 10 == s[n] as int - '0' as int && ParseNat(t) % 10 == t[n] as int - '0' as int;
      ParseInjective(s[..n], t[..n]);
      assert s == s[..n] + [s[n]] && t == t[..n] + [t[n]];
    }
  }

  /** Padding what a text of digits reads as gives the text back. */
  lemma {:induction false} PadParsed(s: string)
    requires s != "" && AllDigits(s)
    ensures ZeroPadded(ParseNat(s), |s|) == s
  {
    ParseBound(s);
    PaddedLength(ParseNat(s), |s|);
    ParsePadded(ParseNat(s), |s|);
    ParseInjective(ZeroPadded(ParseNat(s), |s|), s);
  }
}
