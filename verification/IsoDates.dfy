/** `date.fromisoformat` for calendar dates, and the looser form the bulk validator accepts. */
module IsoDates {
  import opened Basics
  import opened Text
  import opened Calendar

  /** "YYYY-MM-DD" or "YYYYMMDD". */
  function FromIsoFormat(s: string): (r: Option<Date>)
    ensures r.Some? ==> Valid(r.value) && (|s| == 8 || |s| == 10) && forall i | 0 <= i < |s| :: s[i] != '/'
  {
    if |s| == 10 && s[4] == '-' && s[7] == '-' && AllDigits(s[..4] + s[5..7] + s[8..]) then
      assert forall i | 0 <= i < 4 :: (s[..4] + s[5..7] + s[8..])[i] == s[i];
      assert forall i | 5 <= i < 7 :: (s[..4] + s[5..7] + s[8..])[i - 1] == s[i];
      assert forall i | 8 <= i < 10 :: (s[..4] + s[5..7] + s[8..])[i - 2] == s[i];
      Checked(Date(ParseNat(s[..4]), ParseNat(s[5..7]), ParseNat(s[8..])))
    else if |s| == 8 && AllDigits(s) then
      Checked(Date(ParseNat(s[..4]), ParseNat(s[4..6]), ParseNat(s[6..])))
    else None
  }

  function Checked(d: Date): (r: Option<Date>)
    ensures r.Some? ==> Valid(d) && r.value == d
  {
    if Valid(d) then Some(d) else None
  }

  /** `issue_date.replace("/", "-")[:10]`. */
  function Normalized(s: string): string {
    var dashed := seq(|s|, i requires 0 <= i < |s| => if s[i] == '/' then '-' else s[i]);
    if |dashed| > 10 then dashed[..10] else dashed
  }

  function Joined(d: Date, mark: string): string
    requires Valid(d)
  {
    ZeroPadded(d.year, 4) + mark + ZeroPadded(d.month, 2) + mark + ZeroPadded(d.day, 2)
  }

  lemma JoinedParts(d: Date, mark: string)
    requires Valid(d) && |mark| <= 1
    ensures var s, m := Joined(d, mark), |mark|;
            && |s| == 8 + 2 * m
            && s[..4] == ZeroPadded(d.year, 4) && s[4..4 + m] == mark && s[4 + m..6 + m] == ZeroPadded(d.month, 2)
            && s[6 + m..6 + 2 * m] == mark && s[6 + 2 * m..] == ZeroPadded(d.day, 2)
  {
    assert Power10(1) == 10 && Power10(2) == 100 && Power10(3) == 1000 && Power10(4) == 10000;
    PaddedLength(d.year, 4);
    PaddedLength(d.month, 2);
    PaddedLength(d.day, 2);
  }

  lemma DateParses(d: Date)
    requires Valid(d)
    ensures ParseNat(ZeroPadded(d.year, 4)) == d.year
    ensures ParseNat(ZeroPadded(d.month, 2)) == d.month && ParseNat(ZeroPadded(d.day, 2)) == d.day
  {
    ParsePadded(d.year, 4);
    ParsePadded(d.month, 2);
    ParsePadded(d.day, 2);
  }

  lemma ReadsDashed(d: Date)
    requires Valid(d)
    ensures FromIsoFormat(Joined(d, "-")) == Some(d)
  {
    JoinedParts(d, "-");
    DateParses(d);
    hide ZeroPadded, ParseNat, Joined;
    var s := Joined(d, "-");
    assert s[4] == s[4..5][0] == '-' && s[7] == s[7..8][0] == '-';
    assert AllDigits(s[..4] + s[5..7] + s[8..]);
  }

  lemma ReadsCompact(d: Date)
    requires Valid(d)
    ensures FromIsoFormat(Joined(d, "")) == Some(d)
  {
    JoinedParts(d, "");
    DateParses(d);
    hide ZeroPadded, ParseNat, Joined;
    var s := Joined(d, "");
    assert s == s[..4] + s[4..6] + s[6..];
    assert AllDigits(s);
  }

  lemma DashedIsJoined(s: string)
    requires |s| == 10 && s[4] == '-' && s[7] == '-' && AllDigits(s[..4] + s[5..7] + s[8..])
    requires FromIsoFormat(s).Some?
    ensures s == Joined(FromIsoFormat(s).value, "-")
  {
    var digits := s[..4] + s[5..7] + s[8..];
    assert digits[..4] == s[..4] && digits[4..6] == s[5..7] && digits[6..] == s[8..];
    PadParsed(s[..4]);
    PadParsed(s[5..7]);
    PadParsed(s[8..]);
    hide ZeroPadded, ParseNat;
    assert s == s[..4] + "-" + s[5..7] + "-" + s[8..];
  }

  lemma CompactIsJoined(s: string)
    requires |s| == 8 && AllDigits(s) && FromIsoFormat(s).Some?
    ensures s == Joined(FromIsoFormat(s).value, "")
  {
    PadParsed(s[..4]);
    PadParsed(s[4..6]);
    PadParsed(s[6..]);
    hide ZeroPadded, ParseNat;
    assert s == s[..4] + "" + s[4..6] + "" + s[6..];
  }

  /** A text reads as a date exactly when it is that date written as YYYY-MM-DD or YYYYMMDD. */
  lemma ReadsExactly(s: string, d: Date)
    requires Valid(d)
    ensures FromIsoFormat(s) == Some(d) <==> s == Joined(d, "-") || s == Joined(d, "")
  {
    ReadsDashed(d);
    ReadsCompact(d);
    hide Joined;
    if FromIsoFormat(s) == Some(d) {
      if |s| == 10 {
        DashedIsJoined(s);
      } else {
        CompactIsJoined(s);
      }
    }
  }

  /** The validator reads a date written with slashes, and ignores what follows the tenth character. */
  lemma SlashesNormalise(d: Date, tail: string)
    requires Valid(d)
    ensures Normalized(Joined(d, "/") + tail) == Joined(d, "-") == Normalized(Joined(d, "-") + tail)
  {
    JoinedParts(d, "/");
    JoinedParts(d, "-");
    hide ZeroPadded, Joined;
    PadsHaveNoSlash(d);
    var slashed, dashed := Joined(d, "/"), Joined(d, "-");
    forall i | 0 <= i < 10 ensures dashed[i] == (if slashed[i] == '/' then '-' else slashed[i]) && dashed[i] != '/' {
      assert slashed == slashed[..4] + slashed[4..5] + slashed[5..7] + slashed[7..8] + slashed[8..];
      assert dashed == dashed[..4] + dashed[4..5] + dashed[5..7] + dashed[7..8] + dashed[8..];
    }
  }

  lemma PadsHaveNoSlash(d: Date)
    requires Valid(d)
    ensures AllDigits(ZeroPadded(d.year, 4)) && AllDigits(ZeroPadded(d.month, 2)) && AllDigits(ZeroPadded(d.day, 2))
  {
  }

  /** A date the validator passes is readable at issue time exactly when normalising leaves it alone. */
  lemma ValidatedButUnreadable(s: string)
    requires FromIsoFormat(Normalized(s)).Some?
    ensures FromIsoFormat(s).Some? <==> Normalized(s) == s
  {
    if FromIsoFormat(s).Some? {
      assert Normalized(s) == s;
    }
  }
}
