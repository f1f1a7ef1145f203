/** The client-side password rules shown while signing up or resetting a
    password: five independent checks, and a password is strong when all of
    them pass. */
module PasswordStrength {
  import opened Wrappers
  import opened Text

  const MinLength := 10

  /** The outcome of each rule. */
  datatype Checks = Checks(length: bool, upper: bool, lower: bool, digit: bool, special: bool)

  /** Some character of `s` satisfies `p`. */
  predicate AnyChar(s: string, p: char -> bool) {
    exists i | 0 <= i < |s| :: p(s[i])
  }

  predicate IsSpecial(c: char) { !IsAsciiAlnum(c) }

  /** `getPasswordChecks(password)`. A missing password is read as "", the
      length is counted in UTF-16 code units, and each of the other checks
      looks for one character of its ASCII range (special: outside all three). */
  function GetPasswordChecks(password: Option<string>): (c: Checks)
    ensures password.None? ==> c == Checks(false, false, false, false, false)
    ensures var v := password.GetOr("");
      && (c.length ==> 2 * |v| >= MinLength)
      && (|v| >= MinLength ==> c.length)
      && (AllAscii(v) ==> (c.length <==> |v| >= MinLength))
    ensures var v := password.GetOr("");
      && (c.upper <==> exists i | 0 <= i < |v| :: 'A' <= v[i] <= 'Z')
      && (c.lower <==> exists i | 0 <= i < |v| :: 'a' <= v[i] <= 'z')
      && (c.digit <==> exists i | 0 <= i < |v| :: '0' <= v[i] <= '9')
      && (c.special <==> exists i | 0 <= i < |v| ::
            !('A' <= v[i] <= 'Z' || 'a' <= v[i] <= 'z' || '0' <= v[i] <= '9'))
  {
    var v := password.GetOr("");
    Checks(
      Utf16Length(v) >= MinLength,
      AnyChar(v, IsAsciiUpper),
      AnyChar(v, IsAsciiLower),
      AnyChar(v, IsAsciiDigit),
      AnyChar(v, IsSpecial))
  }

  predicate AllPass(c: Checks) {
    c.length && c.upper && c.lower && c.digit && c.special
  }

  /** `isStrongPassword(password)`: every check passes. */
  function IsStrongPassword(password: Option<string>): (b: bool)
    ensures b <==> AllPass(GetPasswordChecks(password))
    ensures b ==> password.Some? && |password.value| >= MinLength / 2
  {
    var c := GetPasswordChecks(password);
    c.length && c.upper && c.lower && c.digit && c.special
  }

  /** The UTF-16 length of a concatenation is the sum of the lengths. */
  lemma {:induction false} Utf16LengthAppend(s: string, t: string)
    ensures Utf16Length(s + t) == Utf16Length(s) + Utf16Length(t)
    decreases |t|
  {
    if t != [] {
      var n := |t| - 1;
      Utf16LengthAppend(s, t[..n]);
      assert (s + t)[..|s + t| - 1] == s + t[..n];
      assert (s + t)[|s + t| - 1] == t[n];
      assert t[..n] + [t[n]] == t;
    } else {
      assert s + t == s;
    }
  }

  lemma AnyCharAppend(s: string, t: string, p: char -> bool)
    requires AnyChar(s, p)
    ensures AnyChar(s + t, p)
  {
    var i :| 0 <= i < |s| && p(s[i]);
    assert (s + t)[i] == s[i];
  }

  /** Appending characters never makes a passing check fail. */
  lemma ExtendKeepsChecks(s: string, t: string)
    ensures var a := GetPasswordChecks(Some(s));
      var b := GetPasswordChecks(Some(s + t));
      && (a.length ==> b.length) && (a.upper ==> b.upper) && (a.lower ==> b.lower)
      && (a.digit ==> b.digit) && (a.special ==> b.special)
  {
    Utf16LengthAppend(s, t);
    if AnyChar(s, IsAsciiUpper) { AnyCharAppend(s, t, IsAsciiUpper); }
    if AnyChar(s, IsAsciiLower) { AnyCharAppend(s, t, IsAsciiLower); }
    if AnyChar(s, IsAsciiDigit) { AnyCharAppend(s, t, IsAsciiDigit); }
    if AnyChar(s, IsSpecial) { AnyCharAppend(s, t, IsSpecial); }
  }

  /** A strong password stays strong when it is extended. */
  lemma StrongStaysStrong(s: string, t: string)
    requires IsStrongPassword(Some(s))
    ensures IsStrongPassword(Some(s + t))
  {
    ExtendKeepsChecks(s, t);
  }

  /** The empty password fails every check, as does a missing one. */
  lemma EmptyIsWeak()
    ensures GetPasswordChecks(Some("")) == Checks(false, false, false, false, false)
    ensures !IsStrongPassword(None) && !IsStrongPassword(Some(""))
  {
  }

  /** A password of ten ASCII characters mixing the four kinds of character
      is strong. */
  lemma SampleStrong()
    ensures IsStrongPassword(Some("Secret#123"))
  {
    var s := "Secret#123";
    assert IsAsciiUpper(s[0]) && IsAsciiLower(s[1]) && IsSpecial(s[6]) && IsAsciiDigit(s[7]);
  }
}
