/**
 * The `MM:SS` text that `updateDisplay` writes for a remaining time in
 * seconds: whole minutes and leftover seconds, each written in decimal and
 * left-padded with '0' to at least two characters. `ParseClock` reads such a
 * text back, and `ParseFormatTime` proves that it recovers the time.
 */
module Clock {
  import opened Options

  predicate IsDigit(c: char) { '0' <= c <= '9' }

  predicate AllDigits(s: string) { forall i :: 0 <= i < |s| ==> IsDigit(s[i]) }

  function DigitValue(c: char): (d: nat)
    requires IsDigit(c)
    ensures d < 10
  {
    c as int - '0' as int
  }

  function DigitChar(d: nat): (c: char)
    requires d < 10
    ensures IsDigit(c) && DigitValue(c) == d
  {
    ('0' as int + d) as char
  }

  /** The decimal digits of `n`, as `Number.prototype.toString` writes a non-negative integer. */
  function DecimalString(n: nat): (s: string)
    ensures |s| >= 1 && AllDigits(s)
    ensures s[0] == '0' <==> n == 0
    ensures |s| == 1 <==> n < 10
    decreases n
  {
    if n < 10 then [DigitChar(n)] else DecimalString(n / 10) + [DigitChar(n % 10)]
  }

  /** The value of a string of decimal digits, most significant digit first. */
  function DigitsValue(s: string): nat
    requires AllDigits(s)
  {
    if s == [] then 0
    else
      10 * DigitsValue(s[..|s| - 1]) + DigitValue(s[|s| - 1])
  }

  /** `String.prototype.padStart(2, '0')`: a string shorter than two characters gets '0's in front. */
  function PadStart2(s: string): (r: string)
    ensures |r| == if |s| >= 2 then |s| else 2
    ensures forall i :: 0 <= i < |r| - |s| ==> r[i] == '0'
    ensures r == seq(|r| - |s|, _ => '0') + s
  {
    if |s| >= 2 then s else if |s| == 1 then ['0'] + s else "00"
  }

  /** One field of the display: `n.toString().padStart(2, '0')`. */
  function Field(n: nat): string
  {
    PadStart2(DecimalString(n))
  }

  /** Whole minutes and leftover seconds of a time, as `Math.floor(t / 60)` and `t % 60`. */
  function MinutesSeconds(t: nat): (r: (nat, nat))
    ensures 60 * r.0 + r.1 == t
    ensures r.1 < 60
  {
    (t / 60, t % 60)
  }

  /** The text `updateDisplay` shows for `t` remaining seconds. */
  function FormatTime(t: nat): string
  {
    var (minutes, seconds) := MinutesSeconds(t);
    Display(minutes, seconds)
  }

  /** Both fields around ':'. */
  function Display(minutes: nat, seconds: nat): string
  {
    Field(minutes) + ":" + Field(seconds)
  }

  /**
   * Reads a display text back into seconds: a run of digits, ':', and
   * exactly two digits that denote fewer than 60 seconds.
   */
  function ParseClock(s: string): Option<nat>
  {
    if |s| >= 5 && s[|s| - 3] == ':' then ParseFields(s[..|s| - 3], s[|s| - 2..]) else None
  }

  /** Reads a minutes field and a seconds field. */
  function ParseFields(minutes: string, seconds: string): Option<nat>
  {
    if AllDigits(minutes) && AllDigits(seconds) && DigitsValue(seconds) < 60 then
      Some(60 * DigitsValue(minutes) + DigitsValue(seconds))
    else None
  }

  lemma {:induction false} DecimalStringValue(n: nat)
    ensures DigitsValue(DecimalString(n)) == n
    decreases n
  {
    if n >= 10 {
      var s := DecimalString(n);
      assert s[..|s| - 1] == DecimalString(n / 10);
      DecimalStringValue(n / 10);
    }
  }

  /** A leading '0' does not change the value of a digit string. */
  lemma {:induction false} LeadingZeroValue(s: string)
    requires AllDigits(s)
    ensures AllDigits(['0'] + s) && DigitsValue(['0'] + s) == DigitsValue(s)
    decreases |s|
  {
    var t := ['0'] + s;
    assert AllDigits(t) by {
      forall i | 0 <= i < |t| ensures IsDigit(t[i]) { if i > 0 { assert t[i] == s[i - 1]; } }
    }
    if s != [] {
      var init := s[..|s| - 1];
      assert AllDigits(init) by {
        forall i | 0 <= i < |init| ensures IsDigit(init[i]) { assert init[i] == s[i]; }
      }
      assert t[..|t| - 1] == ['0'] + init;
      LeadingZeroValue(init);
    } else {
      assert t[..|t| - 1] == [];
    }
  }

  lemma PadStart2Value(s: string)
    requires AllDigits(s)
    ensures AllDigits(PadStart2(s))
    ensures DigitsValue(PadStart2(s)) == DigitsValue(s)
  {
    if |s| < 2 {
      LeadingZeroValue(s);
      if s == [] {
        LeadingZeroValue(['0']);
        assert "00" == ['0'] + ['0'];
      }
    }
  }

  /**
   * A field is all digits, at least two characters long, exactly two for a
   * value below 100, begins with '0' exactly when the value is below 10, and
   * denotes its value.
   */
  lemma FieldShape(n: nat)
    ensures AllDigits(Field(n)) && DigitsValue(Field(n)) == n
    ensures |Field(n)| >= 2
    ensures n < 100 ==> |Field(n)| == 2
    ensures Field(n)[0] == '0' <==> n < 10
  {
    var d := DecimalString(n);
    DecimalStringValue(n);
    PadStart2Value(d);
    if n >= 10 {
      assert |d| >= 2;
      if n < 100 {
        assert n / 10 < 10;
      }
    }
  }

  /** A text of two fields around ':', the second of length two, is read field by field. */
  lemma ParseJoined(minutes: string, seconds: string)
    requires |minutes| >= 2 && |seconds| == 2
    ensures ParseClock(minutes + ":" + seconds) == ParseFields(minutes, seconds)
  {
    var r := minutes + ":" + seconds;
    assert r[..|r| - 3] == minutes;
    assert r[|r| - 2..] == seconds;
  }

  /** Reading a display of fewer than 60 seconds gives back minutes and seconds. */
  lemma ParseDisplay(minutes: nat, seconds: nat)
    requires seconds < 60
    ensures ParseClock(Display(minutes, seconds)) == Some(60 * minutes + seconds)
  {
    FieldShape(minutes);
    FieldShape(seconds);
    ParseJoined(Field(minutes), Field(seconds));
  }

  /** Reading the display text back gives the remaining time it was written from. */
  lemma ParseFormatTime(t: nat)
    ensures ParseClock(FormatTime(t)) == Some(t)
  {
    var (minutes, seconds) := MinutesSeconds(t);
    ParseDisplay(minutes, seconds);
  }

  /** Two different remaining times never show the same text. */
  lemma FormatTimeInjective(t: nat, u: nat)
    requires FormatTime(t) == FormatTime(u)
    ensures t == u
  {
    ParseFormatTime(t);
    ParseFormatTime(u);
  }

  /** 1490 seconds left shows as "24:50". */
  lemma FormatTimeExample()
    ensures FormatTime(1490) == "24:50"
  {
    assert Field(24) == "24";
    assert Field(50) == "50";
  }
}
