/**
 * The pattern `^(-?\d+(\.\d+)?)$` that `User.cs` puts on `Geo.Lat` and `Geo.Lng`:
 * an optional minus sign, one or more digits, then optionally a dot followed by
 * one or more digits, and nothing else.
 *
 * `Matches` is a hand-coded recogniser (a small state machine run over the string);
 * `Decimal` is the language written the way the pattern reads. `MatchesIffDecimal`
 * proves the two agree on every string.
 */
module DecimalPattern {

  predicate IsDigit(c: char) {
    '0' <= c <= '9'
  }

  /** Every character is a digit (the empty string included). */
  predicate AllDigits(s: string) {
    forall i :: 0 <= i < |s| ==> IsDigit(s[i])
  }

  /** `\d+` */
  predicate Digits(s: string) {
    |s| > 0 && AllDigits(s)
  }

  /** `\d+(\.\d+)?` */
  predicate Unsigned(s: string) {
    Digits(s) || exists k :: 0 < k < |s| && s[k] == '.' && Digits(s[..k]) && Digits(s[k + 1..])
  }

  /** `-?\d+(\.\d+)?`, as a whole string. */
  predicate Decimal(s: string) {
    Unsigned(s) || (|s| > 0 && s[0] == '-' && Unsigned(s[1..]))
  }

  /** States of the recogniser: what has been read so far. */
  datatype ScanState =
    | Start       // nothing read
    | Sign        // a leading '-'
    | IntDigits   // at least one integer digit
    | Dot         // integer digits and a '.'
    | FracDigits  // at least one fraction digit
    | Reject      // no continuation can match

  function Step(st: ScanState, c: char): ScanState {
    match st
    case Start => if c == '-' then Sign else if IsDigit(c) then IntDigits else Reject
    case Sign => if IsDigit(c) then IntDigits else Reject
    case IntDigits => if IsDigit(c) then IntDigits else if c == '.' then Dot else Reject
    case Dot => if IsDigit(c) then FracDigits else Reject
    case FracDigits => if IsDigit(c) then FracDigits else Reject
    case Reject => Reject
  }

  function Run(st: ScanState, s: string): ScanState
    decreases |s|
  {
    if s == [] then st else Run(Step(st, s[0]), s[1..])
  }

  predicate Accepting(st: ScanState) {
    st == IntDigits || st == FracDigits
  }

  /** The recogniser: the pattern matches the whole of `s`. */
  predicate Matches(s: string) {
    Accepting(Run(Start, s))
  }

  lemma {:induction false} RejectIsFinal(s: string)
    ensures Run(Reject, s) == Reject
  {
    if s != [] {
      RejectIsFinal(s[1..]);
    }
  }

  lemma {:induction false} FracDigitsAccepts(s: string)
    ensures Accepting(Run(FracDigits, s)) <==> AllDigits(s)
  {
    if s != [] {
      if IsDigit(s[0]) {
        FracDigitsAccepts(s[1..]);
        AllDigitsCons(s);
      } else {
        RejectIsFinal(s[1..]);
      }
    }
  }

  lemma {:induction false} DotAccepts(s: string)
    ensures Accepting(Run(Dot, s)) <==> Digits(s)
  {
    if s != [] {
      if IsDigit(s[0]) {
        FracDigitsAccepts(s[1..]);
        AllDigitsCons(s);
      } else {
        RejectIsFinal(s[1..]);
      }
    }
  }

  /** A string with a digit in front is all digits exactly when its tail is. */
  lemma AllDigitsCons(s: string)
    requires |s| > 0 && IsDigit(s[0])
    ensures AllDigits(s) <==> AllDigits(s[1..])
  {
    if AllDigits(s[1..]) {
      forall i | 0 <= i < |s| ensures IsDigit(s[i]) {
        if i > 0 { assert s[i] == s[1..][i - 1]; }
      }
    }
  }

  /** From IntDigits the rest must be `\d*(\.\d+)?`. */
  predicate IntTail(s: string) {
    AllDigits(s) || exists k :: 0 <= k < |s| && s[k] == '.' && AllDigits(s[..k]) && Digits(s[k + 1..])
  }

  /** `IntTail` seen through one leading digit. */
  lemma IntTailCons(s: string)
    requires |s| > 0 && IsDigit(s[0])
    ensures IntTail(s) <==> IntTail(s[1..])
  {
    var t := s[1..];
    AllDigitsCons(s);
    if IntTail(t) && !AllDigits(t) {
      var k :| 0 <= k < |t| && t[k] == '.' && AllDigits(t[..k]) && Digits(t[k + 1..]);
      assert s[..k + 1][1..] == t[..k];
      AllDigitsCons(s[..k + 1]);
      assert s[k + 2..] == t[k + 1..];
      assert s[k + 1] == '.' && AllDigits(s[..k + 1]) && Digits(s[k + 1 + 1..]);
    }
    if IntTail(s) && !AllDigits(s) {
      var k :| 0 <= k < |s| && s[k] == '.' && AllDigits(s[..k]) && Digits(s[k + 1..]);
      assert k > 0;
      assert t[..k - 1] == s[..k][1..];
      assert t[k..] == s[k + 1..];
      AllDigitsCons(s[..k]);
      assert t[k - 1] == '.' && AllDigits(t[..k - 1]) && Digits(t[k - 1 + 1..]);
    }
  }

  /** For a string that starts with a digit, `\d+(\.\d+)?` and `\d*(\.\d+)?` agree: the
      dot, if any, cannot come first. */
  lemma UnsignedIsIntTail(s: string)
    requires |s| > 0 && IsDigit(s[0])
    ensures Unsigned(s) <==> IntTail(s)
  {
    if IntTail(s) && !AllDigits(s) {
      var k :| 0 <= k < |s| && s[k] == '.' && AllDigits(s[..k]) && Digits(s[k + 1..]);
      assert k > 0 && Digits(s[..k]);
    }
  }

  /** `\d+(\.\d+)?` is a digit followed by an `IntTail`. */
  lemma UnsignedCons(s: string)
    requires |s| > 0 && IsDigit(s[0])
    ensures Unsigned(s) <==> IntTail(s[1..])
  {
    UnsignedIsIntTail(s);
    IntTailCons(s);
  }

  /** No non-empty prefix of a string that starts with a non-digit is all digits. */
  lemma NoDigitPrefix(s: string)
    requires |s| > 0 && !IsDigit(s[0])
    ensures forall k :: 0 < k <= |s| ==> !AllDigits(s[..k])
    ensures !AllDigits(s)
  {
    forall k | 0 < k <= |s| ensures !AllDigits(s[..k]) {
      assert s[..k][0] == s[0];
    }
  }

  /** After the integer digits, a dot must be followed by `\d+` and nothing else. */
  lemma IntTailDot(s: string)
    requires |s| > 0 && s[0] == '.'
    ensures IntTail(s) <==> Digits(s[1..])
  {
    NoDigitPrefix(s);
    if Digits(s[1..]) {
      assert s[..0] == [];
      assert s[0] == '.' && AllDigits(s[..0]) && Digits(s[0 + 1..]);
    }
  }

  lemma IntTailOther(s: string)
    requires |s| > 0 && !IsDigit(s[0]) && s[0] != '.'
    ensures !IntTail(s)
  {
    NoDigitPrefix(s);
  }

  lemma {:induction false} IntDigitsAccepts(s: string)
    ensures Accepting(Run(IntDigits, s)) <==> IntTail(s)
  {
    if s == [] {
      assert AllDigits(s);
    } else if IsDigit(s[0]) {
      IntDigitsAccepts(s[1..]);
      IntTailCons(s);
    } else if s[0] == '.' {
      DotAccepts(s[1..]);
      IntTailDot(s);
    } else {
      RejectIsFinal(s[1..]);
      IntTailOther(s);
    }
  }

  lemma {:induction false} SignAccepts(s: string)
    ensures Accepting(Run(Sign, s)) <==> Unsigned(s)
  {
    if s == [] {
    } else if IsDigit(s[0]) {
      IntDigitsAccepts(s[1..]);
      UnsignedCons(s);
    } else {
      RejectIsFinal(s[1..]);
      NoLeadingDigit(s);
    }
  }

  /** A string that does not start with a digit is not `\d+(\.\d+)?`. */
  lemma NoLeadingDigit(s: string)
    requires |s| > 0 && !IsDigit(s[0])
    ensures !Unsigned(s)
  {
    NoDigitPrefix(s);
  }

  /** The recogniser accepts exactly the strings of the pattern's language. */
  lemma {:induction false} MatchesIffDecimal(s: string)
    ensures Matches(s) <==> Decimal(s)
  {
    if s == [] {
    } else if s[0] == '-' {
      SignAccepts(s[1..]);
      NoLeadingDigit(s);
    } else {
      SignAccepts(s);
      assert Run(Start, s) == Run(Sign, s);
    }
  }

  /** Coordinates the pattern accepts. */
  lemma SamplesAccepted()
    ensures Matches("45") && Matches("-122.4194") && Matches("0.0") && Matches("-37.3159")
  {
  }

  /** Near misses the pattern refuses: a plus sign, a bare dot on either side, an exponent,
      two dots, surrounding blanks, a lone sign and the empty string. */
  lemma SamplesRejected()
    ensures !Matches("+1") && !Matches(".5") && !Matches("1.") && !Matches("1e5")
    ensures !Matches("1.2.3") && !Matches(" 1") && !Matches("1 ") && !Matches("-") && !Matches("")
    ensures !Matches("abc") && !Matches("--1")
  {
  }
}
