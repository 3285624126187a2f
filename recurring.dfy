/**
 * Recurring-transaction templates and the day-of-month input of their two
 * dialogs (client/src/pages/RecurringTransactions.js): the guard that decides
 * whether a typed value replaces the stored one, JavaScript's `parseInt`
 * on which it rests, and how a stored day is displayed.
 */
module Recurring {
  import opened Wrappers

  /**
   * A recurring template as the pages receive it. The day of the month is
   * unset (null) or a number; 0 behaves like unset wherever it is read.
   */
  datatype Template = Template(
    id: nat,
    description: string,
    amount: int,
    kind: string,
    categoryId: int,
    dayOfMonth: Option<int>)

  /** `!day_of_the_month`: null and 0 are falsy. */
  predicate DayUnset(day: Option<int>) {
    day == None || day == Some(0)
  }

  // ---------------------------------------------------------------------
  // parseInt(s) with no radix argument
  // ---------------------------------------------------------------------

  /** The characters `parseInt` skips before the number: white space and line terminators. */
  predicate IsJsWhitespace(c: char) {
    c == ' ' || c == '\t' || c == '\n' || c == '\r' || c == '\U{000B}' || c == '\U{000C}'
    || c == '\U{00A0}' || c == '\U{1680}' || ('\U{2000}' <= c <= '\U{200A}')
    || c == '\U{2028}' || c == '\U{2029}' || c == '\U{202F}' || c == '\U{205F}' || c == '\U{3000}' || c == '\U{FEFF}'
  }

  function TrimStart(s: string): (t: string)
    ensures |t| <= |s| && t == s[|s| - |t|..]
    ensures |t| > 0 ==> !IsJsWhitespace(t[0])
  {
    if |s| > 0 && IsJsWhitespace(s[0]) then TrimStart(s[1..]) else s
  }

  /** The value of `c` as a digit of base `radix` (10 or 16), if it is one. */
  function DigitValue(c: char, radix: int): (v: Option<int>)
    ensures v.Some? ==> 0 <= v.value < radix
  {
    if '0' <= c <= '9' && (c as int) - ('0' as int) < radix then Some((c as int) - ('0' as int))
    else if radix == 16 && 'a' <= c <= 'f' then Some((c as int) - ('a' as int) + 10)
    else if radix == 16 && 'A' <= c <= 'F' then Some((c as int) - ('A' as int) + 10)
    else None
  }

  /** Length of the run of base-`radix` digits that starts `s`. */
  function DigitRun(s: string, radix: int): (n: nat)
    ensures n <= |s|
    ensures forall i :: 0 <= i < n ==> DigitValue(s[i], radix).Some?
    ensures n < |s| ==> DigitValue(s[n], radix).None?
  {
    if |s| > 0 && DigitValue(s[0], radix).Some? then 1 + DigitRun(s[1..], radix) else 0
  }

  /** The number written by the digits `t`, most significant first. */
  function DigitsValue(t: string, radix: int): int
    requires forall i :: 0 <= i < |t| ==> DigitValue(t[i], radix).Some?
  {
    if |t| == 0 then 0
    else DigitsValue(t[..|t| - 1], radix) * radix + DigitValue(t[|t| - 1], radix).value
  }

  /** The longest run of base-`radix` digits at the start of `body`, read as a number; None if there is none. */
  function ParseDigits(body: string, radix: int): Option<int> {
    var n := DigitRun(body, radix);
    if n == 0 then None else Some(DigitsValue(body[..n], radix))
  }

  predicate HasHexPrefix(u: string) {
    |u| >= 2 && u[0] == '0' && (u[1] == 'x' || u[1] == 'X')
  }

  /** A number without its sign: a `0x`/`0X` prefix selects base 16, otherwise base 10. */
  function ParseUnsigned(u: string): Option<int> {
    if HasHexPrefix(u) then ParseDigits(u[2..], 16) else ParseDigits(u, 10)
  }

  /** The text after an optional leading sign. */
  function StripSign(t: string): string {
    if |t| > 0 && (t[0] == '-' || t[0] == '+') then t[1..] else t
  }

  /** The sign and number of a string that has no leading white space. */
  function ParseTrimmed(t: string): Option<int> {
    var v := ParseUnsigned(StripSign(t));
    if v.None? then None
    else if |t| > 0 && t[0] == '-' then Some(-v.value)
    else v
  }

  /**
   * `parseInt(s)`: skip leading white space, read an optional sign, then the
   * unsigned number; no digit at all gives NaN (None). Whatever follows the
   * digits is ignored.
   */
  function ParseInt(s: string): Option<int> {
    ParseTrimmed(TrimStart(s))
  }

  // ---------------------------------------------------------------------
  // Decimal rendering, as a number is displayed
  // ---------------------------------------------------------------------

  function NatToString(n: nat): (s: string)
    ensures |s| > 0 && '0' <= s[0] <= '9'
    ensures forall i :: 0 <= i < |s| ==> '0' <= s[i] <= '9'
  {
    if n < 10 then [('0' as int + n) as char]
    else NatToString(n / 10) + [('0' as int + n % 10) as char]
  }

  function IntToString(n: int): (s: string)
    ensures |s| > 0 && (s[0] == '-' || '0' <= s[0] <= '9')
  {
    if n < 0 then "-" + NatToString(-n) else NatToString(n)
  }

  lemma {:induction false} DecimalDigitsValue(n: nat)
    ensures forall i :: 0 <= i < |NatToString(n)| ==> DigitValue(NatToString(n)[i], 10).Some?
    ensures DigitRun(NatToString(n), 10) == |NatToString(n)|
    ensures DigitsValue(NatToString(n), 10) == n
  {
    var s := NatToString(n);
    DigitRunOfDigits(s);
    if n >= 10 {
      DecimalDigitsValue(n / 10);
      assert s[..|s| - 1] == NatToString(n / 10);
    }
  }

  lemma {:induction false} DigitRunOfDigits(s: string)
    requires forall i :: 0 <= i < |s| ==> '0' <= s[i] <= '9'
    ensures DigitRun(s, 10) == |s|
  {
    if |s| > 0 {
      DigitRunOfDigits(s[1..]);
    }
  }

  /** Decimal digits read as themselves. */
  lemma ParseUnsignedDigits(digits: string)
    requires |digits| > 0 && forall i :: 0 <= i < |digits| ==> '0' <= digits[i] <= '9'
    ensures ParseUnsigned(digits) == Some(DigitsValue(digits, 10))
  {
    assert !HasHexPrefix(digits);
    DigitRunOfDigits(digits);
    assert digits[..|digits|] == digits;
  }

  /** A string that starts with a decimal digit has no white space or sign to skip. */
  lemma ParseIntOfUnsigned(u: string)
    requires |u| > 0 && '0' <= u[0] <= '9'
    ensures ParseInt(u) == ParseUnsigned(u)
  {
    assert !IsJsWhitespace(u[0]);
    assert TrimStart(u) == u;
    assert StripSign(u) == u;
    assert ParseTrimmed(u) == ParseUnsigned(u);
  }

  /** A minus sign in front of a digit negates what follows. */
  lemma ParseIntOfNegated(u: string)
    requires |u| > 0 && '0' <= u[0] <= '9'
    ensures ParseUnsigned(u).Some? ==> ParseInt("-" + u) == Some(-ParseUnsigned(u).value)
  {
    var s := "-" + u;
    assert s[0] == '-' && !IsJsWhitespace(s[0]);
    assert TrimStart(s) == s;
    assert s[1..] == u;
    assert StripSign(s) == u;
    assert ParseUnsigned(u).Some? ==> ParseTrimmed(s) == Some(-ParseUnsigned(u).value);
  }

  /** Reading back a rendered integer gives the integer. */
  lemma ParseIntRoundTrip(n: int)
    ensures ParseInt(IntToString(n)) == Some(n)
  {
    var m: nat := if n < 0 then -n else n;
    DecimalDigitsValue(m);
    var digits := NatToString(m);
    ParseUnsignedDigits(digits);
    if n < 0 {
      assert IntToString(n) == "-" + digits;
      ParseIntOfNegated(digits);
    } else {
      assert IntToString(n) == digits;
      ParseIntOfUnsigned(digits);
    }
  }

  // ---------------------------------------------------------------------
  // The day-of-month guard of both dialogs
  // ---------------------------------------------------------------------

  /** `value === '' || (parseInt(value) >= 1 && parseInt(value) <= 31)` */
  predicate AcceptDay(value: string) {
    value == "" || (ParseInt(value).Some? && 1 <= ParseInt(value).value <= 31)
  }

  /** The fields of the "Add New Recurring Transaction" form, as typed. */
  datatype NewTemplateForm = NewTemplateForm(
    amount: string, description: string, kind: string, categoryId: string, dayOfMonth: string)

  /** The template being edited in the "Edit Recurring Transaction" dialog. */
  datatype EditTemplateForm = EditTemplateForm(
    id: nat, amount: string, description: string, kind: string, categoryId: string, dayOfMonth: string)

  /** The add dialog: an accepted value is stored as typed; anything else leaves the form as it was. */
  function OnNewDayInput(form: NewTemplateForm, value: string): (r: NewTemplateForm)
    ensures AcceptDay(value) ==> r == form.(dayOfMonth := value)
    ensures !AcceptDay(value) ==> r == form
  {
    if AcceptDay(value) then form.(dayOfMonth := value) else form
  }

  /** The edit dialog applies the same guard to its own state. */
  function OnEditDayInput(form: EditTemplateForm, value: string): (r: EditTemplateForm)
    ensures AcceptDay(value) ==> r == form.(dayOfMonth := value)
    ensures !AcceptDay(value) ==> r == form
  {
    if AcceptDay(value) then form.(dayOfMonth := value) else form
  }

  /** The empty string means "any day"; a written integer is accepted exactly when it lies in 1..31. */
  lemma AcceptedDays(n: int)
    ensures AcceptDay("")
    ensures AcceptDay(IntToString(n)) <==> 1 <= n <= 31
  {
    ParseIntRoundTrip(n);
  }

  /** Every accepted non-empty value reads as a day number in 1..31, the range the projection expects. */
  lemma AcceptedValueIsDay(value: string)
    requires AcceptDay(value) && value != ""
    ensures ParseInt(value).Some? && 1 <= ParseInt(value).value <= 31
  {
  }

  /** A run of digits followed by a non-digit (or nothing) is read up to the non-digit. */
  lemma {:induction false} DigitRunPrefix(digits: string, rest: string, radix: int)
    requires forall i :: 0 <= i < |digits| ==> DigitValue(digits[i], radix).Some?
    requires |rest| == 0 || DigitValue(rest[0], radix).None?
    ensures DigitRun(digits + rest, radix) == |digits|
  {
    if |digits| > 0 {
      assert (digits + rest)[0] == digits[0];
      assert (digits + rest)[1..] == digits[1..] + rest;
      DigitRunPrefix(digits[1..], rest, radix);
    } else {
      assert digits + rest == rest;
    }
  }

  /**
   * Decimal digits followed by any text that does not start with a digit
   * read as the digits' value; only "0x"/"0X" would switch to hexadecimal.
   */
  lemma ParseUnsignedDecimal(digits: string, rest: string)
    requires |digits| > 0 && forall i :: 0 <= i < |digits| ==> '0' <= digits[i] <= '9'
    requires |rest| == 0 || !('0' <= rest[0] <= '9')
    requires !(digits == "0" && |rest| > 0 && (rest[0] == 'x' || rest[0] == 'X'))
    ensures ParseUnsigned(digits + rest) == Some(DigitsValue(digits, 10))
  {
    var u := digits + rest;
    if |digits| >= 2 {
      assert u[1] == digits[1];
    } else if |u| >= 2 {
      assert u[1] == rest[0];
    }
    assert !HasHexPrefix(u);
    DigitRunPrefix(digits, rest, 10);
    assert u[..|digits|] == digits;
    assert ParseDigits(u, 10) == Some(DigitsValue(digits, 10));
  }

  /** The decimal rendering of a positive number does not read "0". */
  lemma PositiveNotZeroString(n: nat)
    requires n > 0
    ensures NatToString(n) != "0"
  {
    DecimalDigitsValue(n);
    assert DigitsValue("0", 10) == 0 by {
      assert "0"[..0] == "";
    }
  }

  /** Text after the digits is ignored by the guard, and the typed string is what gets stored ("7th"). */
  lemma TrailingTextAccepted(form: NewTemplateForm, n: int, rest: string)
    requires 1 <= n <= 31
    requires |rest| == 0 || !('0' <= rest[0] <= '9')
    ensures OnNewDayInput(form, IntToString(n) + rest) == form.(dayOfMonth := IntToString(n) + rest)
  {
    DecimalDigitsValue(n);
    PositiveNotZeroString(n);
    ParseUnsignedDecimal(NatToString(n), rest);
    ParseIntOfUnsigned(NatToString(n) + rest);
  }

  /**
   * A number field can hand over exponent and fraction forms; the guard reads
   * only their leading digits, so "1e1" counts as day 1 (not 10) and is
   * stored as typed.
   */
  lemma ExponentFormAccepted(form: NewTemplateForm)
    ensures OnNewDayInput(form, "1e1") == form.(dayOfMonth := "1e1")
  {
    assert IntToString(1) + "e1" == "1e1";
    TrailingTextAccepted(form, 1, "e1");
  }

  /** Likewise "31.9" counts as day 31 and is stored as typed. */
  lemma FractionFormAccepted(form: NewTemplateForm)
    ensures OnNewDayInput(form, "31.9") == form.(dayOfMonth := "31.9")
  {
    assert IntToString(31) + ".9" == "31.9" by {
      assert NatToString(31) == NatToString(3) + ['1'];
    }
    TrailingTextAccepted(form, 31, ".9");
  }

  /** `parseInt` skips leading white space. */
  lemma {:induction false} TrimLeadingWhitespace(w: string, s: string)
    requires forall i :: 0 <= i < |w| ==> IsJsWhitespace(w[i])
    ensures TrimStart(w + s) == TrimStart(s)
  {
    if |w| > 0 {
      assert (w + s)[0] == w[0];
      assert (w + s)[1..] == w[1..] + s;
      TrimLeadingWhitespace(w[1..], s);
    } else {
      assert w + s == s;
    }
  }

  /** White space before a non-empty value does not change the guard's verdict (" 31" is accepted). */
  lemma LeadingSpaceAccepted(form: NewTemplateForm, w: string, value: string)
    requires forall i :: 0 <= i < |w| ==> IsJsWhitespace(w[i])
    requires value != ""
    ensures AcceptDay(w + value) <==> AcceptDay(value)
    ensures AcceptDay(value) ==> OnNewDayInput(form, w + value) == form.(dayOfMonth := w + value)
  {
    TrimLeadingWhitespace(w, value);
    ParseIntAfterTrim(w + value, value);
    assert |w + value| > 0;
  }

  /** `parseInt` looks only at the text after the leading white space. */
  lemma ParseIntAfterTrim(s1: string, s2: string)
    requires TrimStart(s1) == TrimStart(s2)
    ensures ParseInt(s1) == ParseInt(s2)
  {
  }

  /** A value with no decimal digit at all is refused and leaves the form unchanged. */
  lemma NoDigitsRejected(form: NewTemplateForm, value: string)
    requires value != "" && forall i :: 0 <= i < |value| ==> !('0' <= value[i] <= '9')
    ensures OnNewDayInput(form, value) == form
  {
    var u := StripSign(TrimStart(value));
    assert forall i :: 0 <= i < |u| ==> !('0' <= u[i] <= '9') by {
      forall i | 0 <= i < |u| ensures !('0' <= u[i] <= '9') {
        var t := TrimStart(value);
        assert u == t || u == t[1..];
        assert t == value[|value| - |t|..];
        if u == t {
          assert u[i] == value[|value| - |t| + i];
        } else {
          assert u[i] == value[|value| - |t| + 1 + i];
        }
      }
    }
    assert |u| > 0 ==> DigitValue(u[0], 10).None?;
    assert ParseUnsigned(u) == None;
  }

  /** Without a radix argument a "0x" or "0X" prefix makes `parseInt` read hexadecimal digits. */
  lemma ParseUnsignedHex(hex: string, rest: string)
    requires |hex| > 0 && forall i :: 0 <= i < |hex| ==> DigitValue(hex[i], 16).Some?
    requires |rest| == 0 || DigitValue(rest[0], 16).None?
    ensures ParseUnsigned("0x" + (hex + rest)) == Some(DigitsValue(hex, 16))
  {
    var body := hex + rest;
    var u := "0x" + body;
    assert u[0] == '0' && u[1] == 'x';
    assert HasHexPrefix(u);
    assert u[2..] == body;
    DigitRunPrefix(hex, rest, 16);
    assert (hex + rest)[..|hex|] == hex;
    assert ParseDigits(hex + rest, 16) == Some(DigitsValue(hex, 16));
  }

  /** So "0x1f" counts as day 31. */
  lemma HexPrefixAccepted(form: NewTemplateForm)
    ensures OnNewDayInput(form, "0x1f") == form.(dayOfMonth := "0x1f")
  {
    assert DigitsValue("1f", 16) == 31 by {
      assert "1f"[..1] == "1" && "1"[..0] == "";
    }
    ParseUnsignedHex("1f", "");
    assert "0x" + ("1f" + "") == "0x1f";
    ParseIntOfUnsigned("0x1f");
  }

  // ---------------------------------------------------------------------
  // `record.day_of_the_month || 'Any'`
  // ---------------------------------------------------------------------

  function DayDisplay(day: Option<int>): (s: string)
    ensures DayUnset(day) <==> s == "Any"
  {
    if DayUnset(day) then "Any" else IntToString(day.value)
  }

  /** A set day is displayed as its number, which reads back as that day. */
  lemma DayDisplayRoundTrip(n: int)
    requires n != 0
    ensures ParseInt(DayDisplay(Some(n))) == Some(n)
  {
    ParseIntRoundTrip(n);
  }
}
