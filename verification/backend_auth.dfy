/** The account helpers of the back end: the server-side password rules, the
    username derived from an e-mail address, the suffix search that makes a
    new username unique, and the expiry check of a Google identity token. */
module BackendAuth {
  import opened Wrappers
  import opened Text
  import opened Seqs
  import opened PasswordStrength

  const PasswordMinLength := 10

  /** An `HTTPException`: a status code and its detail text. */
  datatype HttpError = HttpError(status: int, detail: string)

  /** The server's five checks. Python counts code points, and the model reads
      `\d` as an ASCII digit. */
  function PasswordChecks(password: string): (c: Checks)
    ensures c.length <==> |password| >= PasswordMinLength
    ensures c.upper <==> exists i | 0 <= i < |password| :: 'A' <= password[i] <= 'Z'
    ensures c.lower <==> exists i | 0 <= i < |password| :: 'a' <= password[i] <= 'z'
    ensures c.digit <==> exists i | 0 <= i < |password| :: '0' <= password[i] <= '9'
    ensures c.special <==> exists i | 0 <= i < |password| ::
      !('A' <= password[i] <= 'Z' || 'a' <= password[i] <= 'z' || '0' <= password[i] <= '9')
  {
    Checks(
      |password| >= PasswordMinLength,
      AnyChar(password, IsAsciiUpper),
      AnyChar(password, IsAsciiLower),
      AnyChar(password, IsAsciiDigit),
      AnyChar(password, IsSpecial))
  }

  function LengthRequirement(): string {
    "at least " + NatToString(PasswordMinLength) + " characters"
  }

  /** The requirement `text` when its check failed, nothing otherwise. */
  function Requirement(passed: bool, text: string): seq<string> {
    if passed then [] else [text]
  }

  /** The requirements a password misses, in the fixed order length, upper
      case, lower case, digit, special character. */
  function Missing(c: Checks): seq<string> {
    Requirement(c.length, LengthRequirement())
    + Requirement(c.upper, "an uppercase letter")
    + Requirement(c.lower, "a lowercase letter")
    + Requirement(c.digit, "a digit")
    + Requirement(c.special, "a special character")
  }

  /** `', '.join(parts)`. */
  function Join(parts: seq<string>, sep: string): string
    decreases |parts|
  {
    if parts == [] then ""
    else if |parts| == 1 then parts[0]
    else parts[0] + sep + Join(parts[1..], sep)
  }

  function WeakDetail(missing: seq<string>): string {
    "Weak password. Include " + Join(missing, ", ") + "."
  }

  /** Nothing is missing exactly when every check passes, each failed check
      contributes its own requirement, and the list never repeats one. */
  lemma MissingSpec(c: Checks)
    ensures Missing(c) == [] <==> AllPass(c)
    ensures |Missing(c)| <= 5 && Distinct(Missing(c))
    ensures (LengthRequirement() in Missing(c)) <==> !c.length
    ensures ("an uppercase letter" in Missing(c)) <==> !c.upper
    ensures ("a lowercase letter" in Missing(c)) <==> !c.lower
    ensures ("a digit" in Missing(c)) <==> !c.digit
    ensures ("a special character" in Missing(c)) <==> !c.special
  {
    RequirementsDistinct();
  }

  /** The five requirement texts differ from one another. */
  lemma RequirementsDistinct()
    ensures var texts := [LengthRequirement(), "an uppercase letter", "a lowercase letter",
                          "a digit", "a special character"];
      forall i, j :: 0 <= i < j < |texts| ==> texts[i] != texts[j]
  {
    var req := LengthRequirement();
    assert req[1] == 't';
  }

  /** `validate_password_strength(password)`: returns normally when every
      check passes and otherwise raises 400, listing the missing requirements
      in their fixed order. */
  method ValidatePasswordStrength(password: string) returns (r: Result<(), HttpError>)
    ensures r.Success? <==> AllPass(PasswordChecks(password))
    ensures r.Failure? ==> r.error == HttpError(400, WeakDetail(Missing(PasswordChecks(password))))
  {
    var checks := PasswordChecks(password);
    if checks.length && checks.upper && checks.lower && checks.digit && checks.special {
      return Success(());
    }
    var missing: seq<string> := [];
    if !checks.length {
      missing := missing + [LengthRequirement()];
    }
    assert missing == Requirement(checks.length, LengthRequirement());
    ghost var done := missing;
    if !checks.upper {
      missing := missing + ["an uppercase letter"];
    }
    assert missing == done + Requirement(checks.upper, "an uppercase letter");
    done := missing;
    if !checks.lower {
      missing := missing + ["a lowercase letter"];
    }
    assert missing == done + Requirement(checks.lower, "a lowercase letter");
    done := missing;
    if !checks.digit {
      missing := missing + ["a digit"];
    }
    assert missing == done + Requirement(checks.digit, "a digit");
    done := missing;
    if !checks.special {
      missing := missing + ["a special character"];
    }
    assert missing == done + Requirement(checks.special, "a special character");
    assert missing == Missing(checks);
    r := Failure(HttpError(400, "Weak password. Include " + Join(missing, ", ") + "."));
  }

  /** For passwords of ASCII characters the client's five checks are the
      server's, so its strength indicator and the server's validation agree. */
  lemma ClientAgreesWithServer(password: string)
    requires AllAscii(password)
    ensures GetPasswordChecks(Some(password)) == PasswordChecks(password)
    ensures IsStrongPassword(Some(password)) <==> AllPass(PasswordChecks(password))
  {
  }

  /** Outside ASCII they can disagree: the client counts UTF-16 code units, so
      eight characters and an emoji pass its length rule while the server,
      counting nine code points, rejects the password. */
  lemma AstralPasswordDisagrees()
    ensures var p := "Secret#1\U{1F600}";
      IsStrongPassword(Some(p)) && !AllPass(PasswordChecks(p))
  {
    var p := "Secret#1\U{1F600}";
    assert Utf16Length(p) == Utf16Length(p[..8]) + 2;
    assert IsAsciiUpper(p[0]) && IsAsciiLower(p[1]) && IsSpecial(p[6]) && IsAsciiDigit(p[7]);
  }

  /** `email.split("@", 1)[0]`. */
  function LocalPart(email: string): (r: string)
    ensures '@' !in r
    ensures '@' !in email ==> r == email
    ensures '@' in email ==> r == email[..FirstIndex(email, '@')]
  {
    if '@' in email then email[..FirstIndex(email, '@')] else email
  }

  predicate UsernameChar(c: char) {
    IsAsciiLower(c) || IsAsciiDigit(c) || c == '_' || c == '.' || c == '-'
  }

  const MaxUsernameLength := 30

  /** The local part of `email`, stripped and lower cased, without the
      characters a username may not hold. */
  function CleanLocal(email: string): (clean: string)
    ensures forall i :: 0 <= i < |clean| ==> UsernameChar(clean[i])
  {
    var clean := Filter(Lower(StripPy(LocalPart(email))), UsernameChar);
    assert forall i :: 0 <= i < |clean| ==> clean[i] in clean;
    clean
  }

  /** `make_username_from_email(email)`: the cleaned local part, "user" when
      nothing is left of it, cut to 30 characters. */
  function MakeUsernameFromEmail(email: string): (r: string)
    ensures 1 <= |r| <= MaxUsernameLength
    ensures forall i :: 0 <= i < |r| ==> UsernameChar(r[i])
    ensures var clean := CleanLocal(email);
      && (clean == [] ==> r == "user")
      && (clean != [] ==>
            |r| == (if |clean| < MaxUsernameLength then |clean| else MaxUsernameLength)
            && r == clean[..|r|])
  {
    var clean := CleanLocal(email);
    var name := if clean == [] then "user" else clean;
    Take(name, MaxUsernameLength)
  }

  /** An address whose local part is already a valid username yields exactly
      that local part. */
  lemma UsernameOfCleanLocal(local: string, rest: string)
    requires 1 <= |local| <= MaxUsernameLength
    requires forall i :: 0 <= i < |local| ==> UsernameChar(local[i])
    requires rest == [] || rest[0] == '@'
    ensures MakeUsernameFromEmail(local + rest) == local
  {
    var email := local + rest;
    assert '@' !in local;
    if rest != [] {
      assert email[|local|] == '@';
      assert email[..|local|] == local;
      assert forall i :: 0 <= i < |local| ==> email[i] != '@';
    } else {
      assert email == local;
    }
    assert LocalPart(email) == local;
    TrimOfTrimmed(local, PySpaces);
    LowerOfLowerCase(local);
    FilterAll(local, UsernameChar);
  }

  /** Deriving a username from a username changes nothing. */
  lemma UsernameIdempotent(email: string)
    ensures MakeUsernameFromEmail(MakeUsernameFromEmail(email)) == MakeUsernameFromEmail(email)
  {
    var r := MakeUsernameFromEmail(email);
    UsernameOfCleanLocal(r, "");
    assert r + "" == r;
  }

  /** The domain plays no part in the username. */
  lemma UsernameIgnoresDomain(local: string, d1: string, d2: string)
    requires '@' !in local
    ensures MakeUsernameFromEmail(local + "@" + d1) == MakeUsernameFromEmail(local + "@" + d2)
  {
    LocalPartAt(local, d1);
    LocalPartAt(local, d2);
  }

  lemma LocalPartAt(local: string, domain: string)
    requires '@' !in local
    ensures LocalPart(local + "@" + domain) == local
  {
    var email := local + "@" + domain;
    assert email[|local|] == '@';
    assert email[..|local|] == local;
    assert forall i :: 0 <= i < |local| ==> email[i] != '@';
  }

  /** The `k`-th name the suffix loop tries: the base itself, then the base
      followed by 2, 3, 4, ... */
  function Candidate(base: string, k: nat): string
    requires k >= 1
  {
    if k == 1 then base else base + NatToString(k)
  }

  /** Different attempts try different names. */
  lemma CandidateInjective(base: string, j: nat, k: nat)
    requires 1 <= j && 1 <= k && Candidate(base, j) == Candidate(base, k)
    ensures j == k
  {
    if j != 1 && k != 1 {
      var a := Candidate(base, j);
      assert a[|base|..] == NatToString(j);
      assert Candidate(base, k)[|base|..] == NatToString(k);
      NatToStringRoundTrip(j);
      NatToStringRoundTrip(k);
    }
  }

  /** The names tried before attempt `k`. */
  function Tried(base: string, k: nat): set<string>
    requires k >= 1
  {
    if k == 1 then {} else Tried(base, k - 1) + {Candidate(base, k - 1)}
  }

  lemma {:induction false} TriedSpec(base: string, k: nat)
    requires k >= 1
    ensures |Tried(base, k)| == k - 1
    ensures forall j :: 1 <= j < k ==> Candidate(base, j) in Tried(base, k)
    ensures Candidate(base, k) !in Tried(base, k)
  {
    if k > 1 {
      TriedSpec(base, k - 1);
      if Candidate(base, k) in Tried(base, k) {
        var j :| 1 <= j < k && Candidate(base, j) == Candidate(base, k) by {
          TriedMembers(base, k, Candidate(base, k));
        }
        CandidateInjective(base, j, k);
      }
    }
  }

  lemma {:induction false} TriedMembers(base: string, k: nat, x: string)
    requires k >= 1 && x in Tried(base, k)
    ensures exists j :: 1 <= j < k && Candidate(base, j) == x
  {
    if k > 1 && x != Candidate(base, k - 1) {
      TriedMembers(base, k - 1, x);
    }
  }

  /** The loop of `google_login` that picks a username for a new account:
      the first of base, base2, base3, ... that no existing user holds. It
      terminates because the taken names are finitely many. */
  method ChooseUsername(base: string, taken: set<string>) returns (username: string, suffix: nat)
    ensures suffix >= 1 && username == Candidate(base, suffix) && username !in taken
    ensures forall j :: 1 <= j < suffix ==> Candidate(base, j) in taken
    ensures suffix <= |taken| + 1
  {
    username := base;
    suffix := 1;
    TriedSpec(base, 1);
    while username in taken
      invariant suffix >= 1 && username == Candidate(base, suffix)
      invariant Tried(base, suffix) <= taken
      decreases |taken| - |Tried(base, suffix)|
    {
      TriedSpec(base, suffix);
      suffix := suffix + 1;
      username := base + NatToString(suffix);
      TriedSpec(base, suffix);
      SubsetCard(Tried(base, suffix), taken);
    }
    TriedSpec(base, suffix);
    assert |Tried(base, suffix)| <= |taken| by {
      SubsetCard(Tried(base, suffix), taken);
    }
  }

  lemma SubsetCard(a: set<string>, b: set<string>)
    requires a <= b
    ensures |a| <= |b|
  {
    assert b == a + (b - a);
  }

  /** The model's reading of Python's `int(text)`, limited to ASCII digits
      without digit-group underscores: surrounding whitespace, an optional sign
      and at least one digit give a number, and anything else is read as a
      `ValueError`. */
  function ParsePyInt(text: string): (r: Option<int>)
    ensures StripPy(text) == [] ==> r.None?
  {
    var t := StripPy(text);
    if t == [] then None
    else
      var sign := if t[0] == '-' then -1 else 1;
      var digits := if t[0] == '-' || t[0] == '+' then t[1..] else t;
      if digits != [] && AllDigits(digits) then Some(sign * DigitsValue(digits)) else None
  }

  /** The expiry of a Google token: its `exp` field, "0" when absent, and 0
      when it is not an integer. */
  function TokenExpiry(exp: Option<string>): int {
    match ParsePyInt(exp.GetOr("0"))
    case Some(n) => n
    case None => 0
  }

  /** A token is refused as expired when its expiry is not after `now`, the
      server's `int(datetime.utcnow().timestamp())`. That value reads the naive
      UTC clock as local time, so on a host whose zone is not UTC it is the
      epoch seconds shifted by the zone's offset. */
  predicate TokenExpired(exp: Option<string>, now: int) {
    TokenExpiry(exp) <= now
  }

  /** A missing or malformed `exp` counts as expired at any time from the
      epoch on. */
  lemma MalformedExpiryIsExpired(exp: Option<string>, now: int)
    requires now >= 0
    requires exp.None? || ParsePyInt(exp.value).None?
    ensures TokenExpired(exp, now)
  {
    if exp.None? {
      ParseIntToString(0);
      assert IntToString(0) == "0";
    }
  }

  /** `str(n)` carries no surrounding whitespace. */
  lemma IntToStringStripped(n: int)
    ensures StripPy(IntToString(n)) == IntToString(n)
  {
    var s := IntToString(n);
    assert s[0] == '-' || IsAsciiDigit(s[0]);
    assert IsAsciiDigit(s[|s| - 1]);
    TrimOfTrimmed(s, PySpaces);
  }

  /** `int(str(n)) == n`. */
  lemma ParseIntToString(n: int)
    ensures ParsePyInt(IntToString(n)) == Some(n)
  {
    IntToStringStripped(n);
    if n < 0 {
      ParseNegative(n);
    } else {
      ParseNonNegative(n);
    }
  }

  lemma ParseNegative(n: int)
    requires n < 0 && StripPy(IntToString(n)) == IntToString(n)
    ensures ParsePyInt(IntToString(n)) == Some(n)
  {
    var s := IntToString(n);
    var digits := NatToString(-n);
    assert s[0] == '-' && s[1..] == digits;
    NatToStringRoundTrip(-n);
    assert AllDigits(digits) && DigitsValue(digits) == -n;
    assert ParsePyInt(s) == Some(-1 * DigitsValue(digits));
  }

  lemma ParseNonNegative(n: int)
    requires n >= 0 && StripPy(IntToString(n)) == IntToString(n)
    ensures ParsePyInt(IntToString(n)) == Some(n)
  {
    var s := IntToString(n);
    assert s == NatToString(n);
    assert IsAsciiDigit(s[0]);
    NatToStringRoundTrip(n);
    assert AllDigits(s);
  }

  /** An expiry written out in decimal reads back as itself, so such a token
      is expired exactly when that time is not after `now`. */
  lemma ExpiryRoundTrip(n: int, now: int)
    ensures TokenExpiry(Some(IntToString(n))) == n
    ensures TokenExpired(Some(IntToString(n)), now) <==> n <= now
  {
    ParseIntToString(n);
  }
}
