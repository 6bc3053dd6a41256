/** What the timer shows: the remaining time as minutes and seconds, and the
    tally of check marks for completed work sessions. */
module Display {

  datatype Option<T> = None | Some(value: T)

  /** The text the reset puts on the clock face (the countdown itself never
      pads the minutes, so it shows "0:00" at zero, not this). */
  const RESET_TEXT: string := "00:00"

  /** The tally mark, U+2714 HEAVY CHECK MARK. */
  const CHECK: char := '\U{2714}'

  predicate IsDigit(c: char) {
    '0' <= c <= '9'
  }

  predicate AllDigits(s: string) {
    forall i :: 0 <= i < |s| ==> IsDigit(s[i])
  }

  function DigitChar(d: nat): (c: char)
    requires d < 10
    ensures IsDigit(c) && c as int - '0' as int == d
  {
    ('0' as int + d) as char
  }

  /** The number a string of decimal digits denotes. */
  function DecimalValue(s: string): nat
    requires AllDigits(s)
  {
    if s == [] then 0
    else DecimalValue(s[..|s| - 1]) * 10 + (s[|s| - 1] as int - '0' as int)
  }

  /** Decimal text of a natural number, without leading zeros, as Python's
      str() writes a non-negative int. */
  function DecimalString(n: nat): (r: string)
    ensures |r| >= 1 && AllDigits(r)
    ensures DecimalValue(r) == n
    ensures r[0] == '0' ==> r == "0"
    ensures n < 10 <==> |r| == 1
  {
    if n < 10 then [DigitChar(n)]
    else
      var front := DecimalString(n / 10);
      var r := front + [DigitChar(n % 10)];
      assert r[..|r| - 1] == front;
      r
  }

  /** The seconds field: zero-padded to exactly two digits. */
  function PadSeconds(sec: nat): (r: string)
    requires sec < 60
    ensures |r| == 2 && AllDigits(r)
    ensures DecimalValue(r) == sec
  {
    if sec < 10 then
      var r := "0" + DecimalString(sec);
      assert r[..1] == "0";
      r
    else DecimalString(sec)
  }

  /** The clock text for `count` remaining seconds: unpadded minutes, a colon,
      and two-digit seconds. Its full shape is stated by FormatShape. */
  function Format(count: nat): (r: string)
    ensures |r| >= 4 && r[|r| - 3] == ':'
    ensures count < 600 <==> |r| == 4
  {
    DecimalString(count / 60) + ":" + PadSeconds(count % 60)
  }

  /** The clock text is the decimal minutes, without a leading zero unless
      they are 0, a colon at the third position from the end, and exactly two
      digits of seconds. */
  lemma FormatShape(count: nat)
    ensures var r := Format(count);
      |r| >= 4 && r[|r| - 3] == ':'
      && AllDigits(r[..|r| - 3]) && DecimalValue(r[..|r| - 3]) == count / 60
      && AllDigits(r[|r| - 2..]) && DecimalValue(r[|r| - 2..]) == count % 60
      && (r[0] == '0' ==> |r| == 4)
  {
    var minutes := DecimalString(count / 60);
    var r := Format(count);
    assert r[..|r| - 3] == minutes;
    assert r[|r| - 2..] == PadSeconds(count % 60);
  }

  /** Reads clock text back into a number of seconds; None for text that the
      countdown could not have shown. */
  function ParseDisplay(s: string): Option<nat> {
    if |s| >= 4 && s[|s| - 3] == ':'
       && AllDigits(s[..|s| - 3]) && AllDigits(s[|s| - 2..])
       && DecimalValue(s[|s| - 2..]) < 60
    then Some(DecimalValue(s[..|s| - 3]) * 60 + DecimalValue(s[|s| - 2..]))
    else None
  }

  /** The clock text determines the count it was made from. */
  lemma FormatRoundTrip(count: nat)
    ensures ParseDisplay(Format(count)) == Some(count)
  {
    FormatShape(count);
  }

  lemma FormatInjective(c1: nat, c2: nat)
    ensures Format(c1) == Format(c2) ==> c1 == c2
  {
    FormatRoundTrip(c1);
    FormatRoundTrip(c2);
  }

  /** Examples of the clock text: minutes unpadded, seconds padded. */
  lemma FormatExamples()
    ensures Format(65) == "1:05"
    ensures Format(0) == "0:00"
    ensures Format(600) == "10:00"
    ensures Format(1500) == "25:00"
  {
    assert DigitChar(0) == '0' && DigitChar(1) == '1' && DigitChar(2) == '2' && DigitChar(5) == '5';
    assert PadSeconds(0) == "00" && PadSeconds(5) == "05";
    assert DecimalString(10) == "10";
    assert DecimalString(25) == "25";
  }

  /** The reset text and the countdown's text for zero differ, though both
      denote zero seconds. */
  lemma ResetTextIsNotFormatZero()
    ensures RESET_TEXT != Format(0)
    ensures ParseDisplay(RESET_TEXT) == ParseDisplay(Format(0)) == Some(0)
  {
    FormatRoundTrip(0);
    FormatShape(0);
    assert RESET_TEXT[..2] == "00" && RESET_TEXT[3..] == "00";
    assert DecimalValue("0") == 0;
    assert DecimalValue("00") == 0;
  }

  /** A tally of `n` check marks. */
  function Marks(n: nat): (r: string)
    ensures |r| == n
    ensures forall i :: 0 <= i < n ==> r[i] == CHECK
  {
    if n == 0 then "" else Marks(n - 1) + [CHECK]
  }

  /** Builds the tally label's text for counter value `reps` by appending one
      mark per completed work session, floor(reps/2) in all. */
  method TallyMarks(reps: nat) returns (mark: string)
    ensures |mark| == reps / 2
    ensures forall i :: 0 <= i < |mark| ==> mark[i] == CHECK
    ensures mark == Marks(reps / 2)
  {
    mark := "";
    var workSessions := reps / 2;
    for i := 0 to workSessions
      invariant mark == Marks(i)
    {
      mark := mark + [CHECK];
    }
  }
}
