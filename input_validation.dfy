/** The validators of karak's `utils/input_validation.rs`: password policy,
    usernames, and Swiss AVS (social-insurance) numbers. */
module InputValidation {
  import opened Wrappers
  import opened Text

  datatype InvalidInput = InvalidInput

  /** A username, built by `UsernameTryFrom` from a string that passed
      `UsernameValidation`. */
  datatype Username = Username(name: string)

  /** An AVS number, built by `AvsNumberTryFrom` from a string that passed
      `ValidateAvsNumber`; `raw` is the text as the user typed it. */
  datatype AvsNumber = AvsNumber(raw: string)

  // ---------------------------------------------------------------------
  // Passwords
  // ---------------------------------------------------------------------

  /** Every character of `s` is numeric in Unicode's sense. */
  predicate AllNumeric(cc: CharClasses, s: string) {
    forall i :: 0 <= i < |s| ==> cc.numeric(s[i])
  }

  /** `password_validation`. The strength estimator (zxcvbn, a score from 0
      to 4 computed from the password and the username) is a parameter. */
  function PasswordValidation(cc: CharClasses, strength: (string, string) -> nat,
                              password: string, username: string): (ok: bool)
    ensures ok ==> 8 <= Utf8Length(password) <= 72 && 2 <= |password| <= 72
    ensures ok ==> !EqIgnoreAsciiCase(password, username)
    ensures ok ==> exists i :: 0 <= i < |password| && !cc.numeric(password[i])
    ensures ok ==> strength(password, username) >= 3
  {
    Utf8LengthBounds(password);
    if Utf8Length(password) < 8 || Utf8Length(password) > 72 then false
    else if EqIgnoreAsciiCase(password, username) then false
    else if AllNumeric(cc, password) then false
    else if strength(password, username) < 3 then false
    else true
  }

  /** The unit tests' rejections for length: "court" is too short, 73
      letters too long. */
  lemma PasswordLengthExamples(cc: CharClasses, strength: (string, string) -> nat)
    ensures !PasswordValidation(cc, strength, "court", "Utilisateur")
    ensures !PasswordValidation(cc, strength, seq(73, _ => 'a'), "Utilisateur")
  {
    var long := seq(73, _ => 'a');
    assert AllAscii(long);
    Utf8LengthBounds(long);
    assert Utf8Length("court") == 5;
  }

  /** The unit tests' rejections of a password equal to the username up to
      ASCII case. */
  lemma PasswordUsernameExamples(cc: CharClasses, strength: (string, string) -> nat)
    ensures !PasswordValidation(cc, strength, "Utilisateur", "Utilisateur")
    ensures !PasswordValidation(cc, strength, "UTILISATEUR", "Utilisateur")
  {
    var upper, name := "UTILISATEUR", "Utilisateur";
    assert EqIgnoreAsciiCase(upper, name) by {
      forall i | 0 <= i < |upper| ensures AsciiLowerChar(upper[i]) == AsciiLowerChar(name[i]) { }
    }
  }

  /** A password of 8 to 72 ASCII digits is rejected whatever the strength. */
  lemma AllDigitsRejected(cc: CharClasses, strength: (string, string) -> nat, p: string, u: string)
    requires cc.Consistent() && 8 <= |p| <= 72
    requires forall i :: 0 <= i < |p| ==> IsAsciiDigit(p[i])
    ensures !PasswordValidation(cc, strength, p, u)
  {
    forall i | 0 <= i < |p| ensures cc.numeric(p[i]) {
      cc.AsciiAgreement(p[i]);
    }
    assert AllNumeric(cc, p);
  }

  /** The unit tests' all-digit passwords are rejected. */
  lemma PasswordDigitsExamples(cc: CharClasses, strength: (string, string) -> nat, p: string)
    requires cc.Consistent() && (p == "1234567890" || p == "12345678")
    ensures !PasswordValidation(cc, strength, p, "Utilisateur")
  {
    forall i | 0 <= i < |p| ensures IsAsciiDigit(p[i]) { }
    AllDigitsRejected(cc, strength, p, "Utilisateur");
  }

  /** An ASCII password of 8 to 72 characters that is not the username and
      does not start with a digit is decided by the strength score alone. */
  lemma StrengthDecides(cc: CharClasses, strength: (string, string) -> nat, p: string, u: string)
    requires cc.Consistent() && AllAscii(p) && 8 <= |p| <= 72 && !EqIgnoreAsciiCase(p, u) && !IsAsciiDigit(p[0])
    ensures PasswordValidation(cc, strength, p, u) <==> strength(p, u) >= 3
  {
    PasswordAsciiRules(cc, strength, p, u);
  }

  /** The unit tests' accepted passwords pass every rule but the strength
      score, so they are accepted exactly when they score 3 or more. */
  lemma PasswordAcceptedExamples(cc: CharClasses, strength: (string, string) -> nat, p: string, u: string)
    requires cc.Consistent()
    requires (p == "MotDePasse123!" && u == "Utilisateur") || (p == "Passw0rd!SuperSecurise" && u == "different_user")
    ensures PasswordValidation(cc, strength, p, u) <==> strength(p, u) >= 3
  {
    assert AllAscii(p) by {
      forall i | 0 <= i < |p| ensures IsAscii(p[i]) { }
    }
    assert |p| != |u|;
    StrengthDecides(cc, strength, p, u);
  }

  /** The unit tests' weak passwords also pass every other rule: they are
      rejected exactly when they score below 3. */
  lemma PasswordWeakExamples(cc: CharClasses, strength: (string, string) -> nat, p: string)
    requires cc.Consistent() && (p == "password123" || p == "qwerty123")
    ensures !PasswordValidation(cc, strength, p, "Utilisateur") <==> strength(p, "Utilisateur") < 3
  {
    assert AllAscii(p) by {
      forall i | 0 <= i < |p| ensures IsAscii(p[i]) { }
    }
    assert AsciiLowerChar(p[0]) != AsciiLowerChar("Utilisateur"[0]);
    StrengthDecides(cc, strength, p, "Utilisateur");
  }

  /** For an ASCII password the byte length is the character count, and the
      policy reads: 8 to 72 characters, not the username up to case, not all
      digits, and strong enough. */
  lemma PasswordAsciiRules(cc: CharClasses, strength: (string, string) -> nat, p: string, u: string)
    requires cc.Consistent() && AllAscii(p)
    ensures PasswordValidation(cc, strength, p, u) <==>
              8 <= |p| <= 72 && !EqIgnoreAsciiCase(p, u)
              && (exists i :: 0 <= i < |p| && !IsAsciiDigit(p[i])) && strength(p, u) >= 3
  {
    Utf8LengthBounds(p);
    forall i | 0 <= i < |p| ensures cc.numeric(p[i]) <==> IsAsciiDigit(p[i]) {
      cc.AsciiAgreement(p[i]);
    }
  }

  // ---------------------------------------------------------------------
  // Usernames
  // ---------------------------------------------------------------------

  predicate IsUsernameChar(c: char) {
    IsAsciiAlnum(c) || c == '.' || c == '_' || c == '-'
  }

  /** The regular expression `^[a-zA-Z0-9][a-zA-Z0-9._-]*[a-zA-Z0-9]$`. */
  predicate UsernamePattern(s: string) {
    && |s| >= 2
    && IsAsciiAlnum(s[0])
    && IsAsciiAlnum(s[|s| - 1])
    && forall i :: 0 <= i < |s| ==> IsUsernameChar(s[i])
  }

  const ReservedUsernames: seq<string> := ["admin", "root", "superuser", "test", "guest"]

  /** `username_validation`: the checks in the order the source makes them.
      The lower-casing of the reserved-name check is reached only by pure
      ASCII strings, where Unicode and ASCII lower-casing coincide. */
  function UsernameValidation(s: string): (r: Result<(), InvalidInput>)
    ensures r.Ok? ==> 3 <= |s| <= 30 && AllAscii(s)
  {
    if Utf8Length(s) < 3 || Utf8Length(s) > 30 then Err(InvalidInput)
    else if !UsernamePattern(s) then Err(InvalidInput)
    else if Contains(s, "..") || Contains(s, "__") || Contains(s, "--") then Err(InvalidInput)
    else if AsciiLower(s) in ReservedUsernames then Err(InvalidInput)
    else
      assert AllAscii(s) by {
        forall i | 0 <= i < |s| ensures IsAscii(s[i]) { assert IsUsernameChar(s[i]); }
      }
      Utf8LengthBounds(s);
      Ok(())
  }

  /** `s` holds a doubled `.`, `_` or `-` at some position. */
  predicate HasDoubledSymbol(s: string) {
    exists i :: 0 <= i < |s| - 1 && s[i] in {'.', '_', '-'} && s[i + 1] == s[i]
  }

  lemma ContainsPair(s: string, c: char)
    ensures Contains(s, [c, c]) <==> exists i :: 0 <= i < |s| - 1 && s[i] == c && s[i + 1] == c
  {
    if exists i :: 0 <= i < |s| - 1 && s[i] == c && s[i + 1] == c {
      var i :| 0 <= i < |s| - 1 && s[i] == c && s[i + 1] == c;
      assert [c, c] <= s[i..];
    }
    if Contains(s, [c, c]) {
      var i :| 0 <= i <= |s| && [c, c] <= s[i..];
      assert s[i..][0] == s[i] && s[i..][1] == s[i + 1];
    }
  }

  /** The username rules, stated on characters: between 3 and 30 of them,
      all ASCII; first and last alphanumeric, the others alphanumeric or one
      of `._-`; no symbol doubled; not a reserved name in any letter case. */
  lemma UsernameRules(s: string)
    ensures UsernameValidation(s).Ok? <==>
      && 3 <= |s| <= 30
      && UsernamePattern(s)
      && !HasDoubledSymbol(s)
      && AsciiLower(s) !in ReservedUsernames
  {
    ContainsPair(s, '.');
    assert ".." == ['.', '.'];
    ContainsPair(s, '_');
    assert "__" == ['_', '_'];
    ContainsPair(s, '-');
    assert "--" == ['-', '-'];
    if UsernamePattern(s) {
      assert AllAscii(s) by {
        forall i | 0 <= i < |s| ensures IsAscii(s[i]) { assert IsUsernameChar(s[i]); }
      }
      Utf8LengthBounds(s);
    }
    if HasDoubledSymbol(s) {
      var i :| 0 <= i < |s| - 1 && s[i] in {'.', '_', '-'} && s[i + 1] == s[i];
      assert s[i] == '.' || s[i] == '_' || s[i] == '-';
    }
  }

  /** `Username::try_from`: succeeds exactly when the validation does, and
      keeps the string as given. */
  function UsernameTryFrom(s: string): (r: Result<Username, InvalidInput>)
    ensures r.Ok? <==> UsernameValidation(s).Ok?
    ensures r.Ok? ==> r.value.name == s
  {
    var _ :- UsernameValidation(s);
    Ok(Username(s))
  }

  // ---------------------------------------------------------------------
  // AVS numbers
  // ---------------------------------------------------------------------

  /** `t` starts with `n` characters of the regex class `\d`. */
  predicate DigitRun(cc: CharClasses, t: string, n: nat) {
    n <= |t| && forall i :: 0 <= i < n ==> cc.decimalDigit(t[i])
  }

  /** `t` matches `\.?\d{g0}\.?\d{g1}...` for the group sizes `groups`. */
  predicate DottedGroups(cc: CharClasses, t: string, groups: seq<nat>)
    decreases |groups|
  {
    if groups == [] then t == []
    else
      var g := groups[0];
      || (0 < |t| && t[0] == '.' && DigitRun(cc, t[1..], g) && DottedGroups(cc, t[1 + g..], groups[1..]))
      || (DigitRun(cc, t, g) && DottedGroups(cc, t[g..], groups[1..]))
  }

  /** The regular expression `^756\.?\d{4}\.?\d{4}\.?\d{2}$`. */
  predicate AvsPattern(cc: CharClasses, s: string) {
    3 <= |s| && s[..3] == "756" && DottedGroups(cc, s[3..], [4, 4, 2])
  }

  /** The characters `c.is_digit(10)` keeps: ASCII digits only. */
  function DigitChars(s: string): (d: string)
    ensures |d| <= |s|
    ensures forall i :: 0 <= i < |d| ==> IsAsciiDigit(d[i])
  {
    if s == [] then []
    else (if IsAsciiDigit(s[0]) then [s[0]] else []) + DigitChars(s[1..])
  }

  /** `s.chars().filter_map(|c| c.to_digit(10))`. */
  function AsciiDigits(s: string): (d: seq<nat>)
    ensures forall i :: 0 <= i < |d| ==> d[i] <= 9
  {
    var cs := DigitChars(s);
    seq(|cs|, i requires 0 <= i < |cs| => (cs[i] as int - '0' as int) as nat)
  }

  /** Weight of the digit at index `i`: 2 at even indices, 1 at odd ones. */
  function Weight(i: nat): nat {
    if i % 2 == 0 then 2 else 1
  }

  /** The sum the checksum loop accumulates over `d`. */
  function WeightedSum(d: seq<nat>): nat
    decreases |d|
  {
    if d == [] then 0 else WeightedSum(d[..|d| - 1]) + Weight(|d| - 1) * d[|d| - 1]
  }

  /** What `validate_avs_number` accepts: the pattern, exactly 13 ASCII digits,
      and a weighted digit sum divisible by 10. */
  predicate AvsValid(cc: CharClasses, s: string) {
    AvsPattern(cc, s) && |AsciiDigits(s)| == 13 && WeightedSum(AsciiDigits(s)) % 10 == 0
  }

  /** `validate_avs_number`, with its checksum loop. */
  method ValidateAvsNumber(cc: CharClasses, s: string) returns (ok: bool)
    ensures ok == AvsValid(cc, s)
  {
    if !AvsPattern(cc, s) {
      return false;
    }
    var digits := AsciiDigits(s);
    if |digits| != 13 {
      return false;
    }
    var sum := 0;
    for i := 0 to |digits|
      invariant sum == WeightedSum(digits[..i])
    {
      assert digits[..i + 1][..i] == digits[..i];
      sum := sum + if i % 2 == 0 then digits[i] * 2 else digits[i];
    }
    assert digits[..|digits|] == digits;
    ok := sum % 10 == 0;
  }

  /** `AVSNumber::try_from`: succeeds exactly when the number validates, and
      keeps the text as given. */
  method AvsNumberTryFrom(cc: CharClasses, s: string) returns (r: Result<AvsNumber, InvalidInput>)
    ensures r.Ok? <==> AvsValid(cc, s)
    ensures r.Ok? ==> r.value.raw == s
  {
    var ok := ValidateAvsNumber(cc, s);
    if ok {
      r := Ok(AvsNumber(s));
    } else {
      r := Err(InvalidInput);
    }
  }

  /** The thirteen digits `d` written `ddd.dddd.dddd.dd`. */
  function Regroup(d: string): string
    requires |d| == 13
  {
    d[..3] + "." + d[3..7] + "." + d[7..11] + "." + d[11..]
  }

  /** The `Display` of an AVS number: its digits regrouped when there are
      thirteen of them, the text as stored otherwise. */
  function AvsDisplay(a: AvsNumber): (r: string)
    ensures |DigitChars(a.raw)| == 13 ==> |r| == 16 && DigitChars(r) == DigitChars(a.raw)
    ensures |DigitChars(a.raw)| != 13 ==> r == a.raw
  {
    var d := DigitChars(a.raw);
    if |d| == 13 then
      RegroupDigits(d);
      Regroup(d)
    else a.raw
  }

  // ---------------------------------------------------------------------
  // Facts about AVS numbers
  // ---------------------------------------------------------------------

  predicate AllAsciiDigits(s: string) {
    forall i :: 0 <= i < |s| ==> IsAsciiDigit(s[i])
  }

  lemma {:induction false} DigitCharsConcat(a: string, b: string)
    ensures DigitChars(a + b) == DigitChars(a) + DigitChars(b)
  {
    if a == [] {
      assert a + b == b;
    } else {
      assert (a + b)[0] == a[0] && (a + b)[1..] == a[1..] + b;
      DigitCharsConcat(a[1..], b);
    }
  }

  /** Filtering keeps everything exactly when everything is a digit. */
  lemma {:induction false} DigitCharsFull(x: string)
    ensures |DigitChars(x)| == |x| <==> AllAsciiDigits(x)
    ensures AllAsciiDigits(x) ==> DigitChars(x) == x
  {
    if x != [] {
      DigitCharsFull(x[1..]);
      if AllAsciiDigits(x[1..]) && IsAsciiDigit(x[0]) {
        assert AllAsciiDigits(x) by {
          forall i | 0 < i < |x| ensures IsAsciiDigit(x[i]) { assert x[i] == x[1..][i - 1]; }
        }
      }
      if AllAsciiDigits(x) {
        assert AllAsciiDigits(x[1..]) by {
          forall i | 0 <= i < |x| - 1 ensures IsAsciiDigit(x[1..][i]) { assert x[1..][i] == x[i + 1]; }
        }
      }
    }
  }

  predicate DigitOrDot(c: char) {
    IsAsciiDigit(c) || c == '.'
  }

  function Sum(groups: seq<nat>): nat {
    if groups == [] then 0 else groups[0] + Sum(groups[1..])
  }

  /** A string matching the dotted groups holds at most as many ASCII digits
      as the groups have places, and when it holds that many, every place is
      an ASCII digit. */
  lemma {:induction false} DottedGroupsDigits(cc: CharClasses, t: string, groups: seq<nat>)
    requires DottedGroups(cc, t, groups)
    ensures |DigitChars(t)| <= Sum(groups)
    ensures |DigitChars(t)| == Sum(groups) ==> forall i :: 0 <= i < |t| ==> DigitOrDot(t[i])
    decreases |groups|
  {
    if groups != [] {
      var g := groups[0];
      var k := if 0 < |t| && t[0] == '.' && DigitRun(cc, t[1..], g) && DottedGroups(cc, t[1 + g..], groups[1..])
               then 1 else 0;
      assert k + g <= |t| && DottedGroups(cc, t[k + g..], groups[1..]);
      DottedGroupsDigits(cc, t[k + g..], groups[1..]);
      PieceDigits(t, k, g);
      if |DigitChars(t)| == Sum(groups) {
        forall i | 0 <= i < |t| ensures DigitOrDot(t[i]) {
          if k + g <= i { assert t[i] == t[k + g..][i - k - g]; }
        }
      }
    }
  }

  /** Splitting `t` into at most one leading dot, a run of `g` characters and
      the rest, for counting digits. */
  lemma PieceDigits(t: string, k: nat, g: nat)
    requires k <= 1 && k + g <= |t| && (k == 1 ==> t[0] == '.')
    ensures |DigitChars(t)| == |DigitChars(t[k..k + g])| + |DigitChars(t[k + g..])|
    ensures |DigitChars(t[k..k + g])| <= g
    ensures |DigitChars(t[k..k + g])| == g ==> forall i :: k <= i < k + g ==> IsAsciiDigit(t[i])
  {
    var pre, run, rest := t[..k], t[k..k + g], t[k + g..];
    assert t == pre + run + rest;
    DigitCharsConcat(pre + run, rest);
    DigitCharsConcat(pre, run);
    assert DigitChars(pre) == [] by {
      if k == 1 { assert pre == ['.']; assert pre[1..] == []; } else { assert pre == []; }
    }
    DigitCharsFull(run);
    if |DigitChars(run)| == g {
      forall i | k <= i < k + g ensures IsAsciiDigit(t[i]) { assert t[i] == run[i - k]; }
    }
  }

  /** An accepted AVS number is made of ASCII digits and dots only, between
      13 and 16 characters long: the count of thirteen ASCII digits rules out
      every non-ASCII digit that the regex class `\d` lets through. */
  lemma AvsValidIsAscii(cc: CharClasses, s: string)
    requires AvsValid(cc, s)
    ensures forall i :: 0 <= i < |s| ==> DigitOrDot(s[i])
    ensures AllAscii(s) && 13 <= |s| <= 16
  {
    var t := s[3..];
    assert s == s[..3] + t;
    DigitCharsConcat(s[..3], t);
    assert DigitChars(s[..3]) == "756" by {
      DigitCharsFull("756");
    }
    DottedGroupsDigits(cc, t, [4, 4, 2]);
    assert Sum([4, 4, 2]) == 10;
    forall i | 0 <= i < |s| ensures DigitOrDot(s[i]) {
      if i >= 3 { assert s[i] == t[i - 3]; } else { assert s[i] == "756"[i]; }
    }
    assert AllAscii(s) by {
      forall i | 0 <= i < |s| ensures IsAscii(s[i]) { assert DigitOrDot(s[i]); }
    }
    assert 13 <= |s| by {
      assert |DigitChars(s)| == 13;
    }
    assert |s| <= 16 by {
      DottedGroupsLength(cc, t, [4, 4, 2]);
    }
  }

  lemma {:induction false} DottedGroupsLength(cc: CharClasses, t: string, groups: seq<nat>)
    requires DottedGroups(cc, t, groups)
    ensures |t| <= Sum(groups) + |groups|
    decreases |groups|
  {
    if groups != [] {
      var g := groups[0];
      if 0 < |t| && t[0] == '.' && DigitRun(cc, t[1..], g) && DottedGroups(cc, t[1 + g..], groups[1..]) {
        DottedGroupsLength(cc, t[1 + g..], groups[1..]);
      } else {
        DottedGroupsLength(cc, t[g..], groups[1..]);
      }
    }
  }

  /** The digit values of a string of ASCII digits. */
  function Values(d: string): seq<nat>
    requires AllAsciiDigits(d)
  {
    seq(|d|, i requires 0 <= i < |d| => (d[i] as int - '0' as int) as nat)
  }

  /** Thirteen ASCII digits starting with 756, without dots, are accepted
      exactly when their checksum holds. */
  lemma AvsUndottedAccepted(cc: CharClasses, d: string)
    requires cc.Consistent()
    requires |d| == 13 && AllAsciiDigits(d) && d[..3] == "756"
    ensures AvsValid(cc, d) <==> WeightedSum(Values(d)) % 10 == 0
  {
    forall i | 0 <= i < |d| ensures cc.decimalDigit(d[i]) {
      cc.AsciiAgreement(d[i]);
    }
    DigitCharsFull(d);
    assert AsciiDigits(d) == Values(d);
    var t := d[3..];
    assert DigitRun(cc, t[8..], 2) && t[8..][2..] == [];
    assert DottedGroups(cc, t[8..], [2]) by { assert [2][1..] == []; }
    assert DigitRun(cc, t[4..], 4) && t[4..][4..] == t[8..];
    assert DottedGroups(cc, t[4..], [4, 2]) by { assert [4, 2][1..] == [2]; }
    assert DigitRun(cc, t, 4);
    assert DottedGroups(cc, t, [4, 4, 2]) by { assert [4, 4, 2][1..] == [4, 2]; }
  }

  /** The same thirteen digits written `ddd.dddd.dddd.dd` are accepted exactly
      when their checksum holds. */
  lemma AvsDottedAccepted(cc: CharClasses, d: string)
    requires cc.Consistent()
    requires |d| == 13 && AllAsciiDigits(d) && d[..3] == "756"
    ensures AvsValid(cc, Regroup(d)) <==> WeightedSum(Values(d)) % 10 == 0
  {
    var r := Regroup(d);
    RegroupPattern(cc, d);
    RegroupDigits(d);
    DigitCharsFull(d);
    assert AsciiDigits(r) == Values(d);
  }

  /** One dot-prefixed group of ASCII digits in front of groups that match. */
  lemma DottedPiece(cc: CharClasses, x: string, rest: string, g: nat, gs: seq<nat>)
    requires cc.Consistent()
    requires |x| == g && AllAsciiDigits(x) && DottedGroups(cc, rest, gs)
    ensures DottedGroups(cc, "." + x + rest, [g] + gs)
  {
    var u := "." + x + rest;
    forall i | 0 <= i < g ensures cc.decimalDigit(u[1..][i]) {
      assert u[1..][i] == x[i];
      cc.AsciiAgreement(x[i]);
    }
    assert u[1 + g..] == rest;
    assert ([g] + gs)[1..] == gs;
  }

  /** The regrouped digits: the prefix, then three dot-prefixed groups. */
  lemma RegroupSplit(d: string)
    requires |d| == 13
    ensures Regroup(d)[..3] == d[..3]
    ensures Regroup(d)[3..] == "." + d[3..7] + ("." + d[7..11] + ("." + d[11..]))
  {
  }

  /** Thirteen ASCII digits starting with 756, regrouped, match the pattern. */
  lemma RegroupPattern(cc: CharClasses, d: string)
    requires cc.Consistent()
    requires |d| == 13 && AllAsciiDigits(d) && d[..3] == "756"
    ensures AvsPattern(cc, Regroup(d))
  {
    var a, b, c := d[3..7], d[7..11], d[11..];
    assert AllAsciiDigits(a) && AllAsciiDigits(b) && AllAsciiDigits(c);
    var p := "." + c;
    var q := "." + b + p;
    assert DottedGroups(cc, [], []);
    DottedPiece(cc, c, [], 2, []);
    assert "." + c + [] == p;
    DottedPiece(cc, b, p, 4, [2]);
    DottedPiece(cc, a, q, 4, [4, 2]);
    assert [4] + [4, 2] == [4, 4, 2];
    RegroupSplit(d);
  }

  /** A dot and a group of ASCII digits contribute exactly that group. */
  lemma DotPieceDigits(x: string, rest: string)
    requires AllAsciiDigits(x)
    ensures DigitChars("." + x + rest) == x + DigitChars(rest)
  {
    var dot := ".";
    assert DigitChars(dot) == [] by { assert dot[1..] == []; }
    DigitCharsFull(x);
    DigitCharsConcat(dot, x);
    DigitCharsConcat(dot + x, rest);
  }

  /** Regrouping only inserts dots: the digits are those of `d`. */
  lemma RegroupDigits(d: string)
    requires |d| == 13 && AllAsciiDigits(d)
    ensures DigitChars(Regroup(d)) == d
  {
    var a, b, c := d[3..7], d[7..11], d[11..];
    assert AllAsciiDigits(a) && AllAsciiDigits(b) && AllAsciiDigits(c);
    var p := "." + c;
    var q := "." + b + p;
    var u := "." + a + q;
    DotPieceDigits(c, []);
    assert "." + c + [] == p;
    assert DigitChars([]) == [];
    DotPieceDigits(b, p);
    DotPieceDigits(a, q);
    RegroupSplit(d);
    assert Regroup(d) == d[..3] + u;
    DigitCharsConcat(d[..3], u);
    DigitCharsFull(d[..3]);
    assert d[..3] + (a + (b + (c + []))) == d;
  }

  /** Display is a normal form of an accepted number: it is the digits
      regrouped as `ddd.dddd.dddd.dd`, it is itself accepted with the same
      digits, and displaying it again changes nothing. */
  lemma AvsDisplayNormalForm(cc: CharClasses, s: string)
    requires cc.Consistent() && AvsValid(cc, s)
    ensures AvsDisplay(AvsNumber(s)) == Regroup(DigitChars(s))
    ensures AvsValid(cc, AvsDisplay(AvsNumber(s)))
    ensures AsciiDigits(AvsDisplay(AvsNumber(s))) == AsciiDigits(s)
    ensures AvsDisplay(AvsNumber(AvsDisplay(AvsNumber(s)))) == AvsDisplay(AvsNumber(s))
  {
    var d := DigitChars(s);
    assert |d| == 13;
    assert AllAsciiDigits(d);
    RegroupDigits(d);
    AvsValidIsAscii(cc, s);
    assert d[..3] == "756" by {
      var t := s[3..];
      assert s == s[..3] + t;
      DigitCharsConcat(s[..3], t);
      DigitCharsFull("756");
    }
    AvsDottedAccepted(cc, d);
    DigitCharsFull(d);
    assert AsciiDigits(s) == Values(d);
  }

  /** The dotted and the undotted writing of the same thirteen digits display
      identically, as the dotted writing. */
  lemma AvsDisplayIgnoresDots(d: string)
    requires |d| == 13 && AllAsciiDigits(d)
    ensures AvsDisplay(AvsNumber(d)) == Regroup(d)
    ensures AvsDisplay(AvsNumber(Regroup(d))) == Regroup(d)
  {
    DigitCharsFull(d);
    RegroupDigits(d);
  }

  /** The checksum of the unit tests' valid number 756.1234.5678.97. */
  lemma ValidExampleChecksum()
    ensures AllAsciiDigits("7561234567897")
    ensures WeightedSum(Values("7561234567897")) == 110
  {
    var d := "7561234567897";
    assert AllAsciiDigits(d);
    var v := Values(d);
    ChecksumOf(v);
    assert v[0] == 7 && v[1] == 5 && v[2] == 6 && v[3] == 1 && v[4] == 2 && v[5] == 3 && v[6] == 4;
    assert v[7] == 5 && v[8] == 6 && v[9] == 7 && v[10] == 8 && v[11] == 9 && v[12] == 7;
  }

  /** The unit tests' numbers: 756.1234.5678.97 is accepted with or without
      dots, and displays as 756.1234.5678.97 either way. */
  lemma AvsAcceptedExamples(cc: CharClasses)
    requires cc.Consistent()
    ensures AvsValid(cc, "756.1234.5678.97") && AvsValid(cc, "7561234567897")
    ensures AvsDisplay(AvsNumber("7561234567897")) == "756.1234.5678.97"
    ensures AvsDisplay(AvsNumber("756.1234.5678.97")) == "756.1234.5678.97"
  {
    var d := "7561234567897";
    ValidExampleChecksum();
    assert WeightedSum(Values(d)) % 10 == 0;
    assert d[..3] == "756" && d[3..7] == "1234" && d[7..11] == "5678" && d[11..] == "97";
    assert Regroup(d) == "756" + "." + "1234" + "." + "5678" + "." + "97";
    assert Regroup(d) == "756.1234.5678.97";
    AvsUndottedAccepted(cc, d);
    AvsDottedAccepted(cc, d);
    AvsDisplayIgnoresDots(d);
  }

  /** The unit tests' wrong check digit 7560000000009. */
  lemma AvsChecksumExample(cc: CharClasses)
    requires cc.Consistent()
    ensures !AvsValid(cc, "7560000000009")
  {
    var d := "7560000000009";
    assert AllAsciiDigits(d);
    var v := Values(d);
    ChecksumOf(v);
    assert v[0] == 7 && v[1] == 5 && v[2] == 6 && v[3] == 0 && v[4] == 0 && v[5] == 0 && v[6] == 0;
    assert v[7] == 0 && v[8] == 0 && v[9] == 0 && v[10] == 0 && v[11] == 0 && v[12] == 9;
    assert WeightedSum(v) % 10 != 0;
    assert d[..3] == "756";
    AvsUndottedAccepted(cc, d);
  }

  /** The checksum of the digits of the unit tests' 756.1234.5678.00. */
  lemma WrongDottedChecksum()
    ensures AllAsciiDigits("7561234567800")
    ensures WeightedSum(Values("7561234567800")) == 87
  {
    var e := "7561234567800";
    assert AllAsciiDigits(e);
    var v := Values(e);
    ChecksumOf(v);
    assert v[0] == 7 && v[1] == 5 && v[2] == 6 && v[3] == 1 && v[4] == 2 && v[5] == 3 && v[6] == 4;
    assert v[7] == 5 && v[8] == 6 && v[9] == 7 && v[10] == 8 && v[11] == 0 && v[12] == 0;
  }

  /** The unit tests' wrong check digits 756.1234.5678.00. */
  lemma AvsDottedChecksumExample(cc: CharClasses)
    requires cc.Consistent()
    ensures !AvsValid(cc, "756.1234.5678.00")
  {
    var e := "7561234567800";
    WrongDottedChecksum();
    assert WeightedSum(Values(e)) % 10 != 0;
    assert e[..3] == "756";
    assert Regroup(e) == "756.1234.5678.00";
    AvsDottedAccepted(cc, e);
  }

  /** Matching groups take at least as many characters as their digits. */
  lemma {:induction false} DottedGroupsMin(cc: CharClasses, t: string, groups: seq<nat>)
    requires DottedGroups(cc, t, groups)
    ensures Sum(groups) <= |t|
    decreases |groups|
  {
    if groups != [] {
      var g := groups[0];
      if 0 < |t| && t[0] == '.' && DigitRun(cc, t[1..], g) && DottedGroups(cc, t[1 + g..], groups[1..]) {
        DottedGroupsMin(cc, t[1 + g..], groups[1..]);
      } else {
        DottedGroupsMin(cc, t[g..], groups[1..]);
      }
    }
  }

  /** Ten characters starting with a dot cannot hold the three groups. */
  lemma ShortDottedRejected(cc: CharClasses, t: string)
    requires cc.Consistent() && |t| == 10 && t[0] == '.'
    ensures !DottedGroups(cc, t, [4, 4, 2])
  {
    cc.AsciiAgreement('.');
    assert Sum([4, 2]) == 6;
    assert !DottedGroups(cc, t[5..], [4, 2]) by {
      if DottedGroups(cc, t[5..], [4, 2]) {
        DottedGroupsMin(cc, t[5..], [4, 2]);
      }
    }
  }

  /** The unit tests' number with a group missing, 756.1234.5678. */
  lemma AvsTooShortExample(cc: CharClasses)
    requires cc.Consistent()
    ensures !AvsValid(cc, "756.1234.5678")
  {
    var short := "756.1234.5678";
    ShortDottedRejected(cc, short[3..]);
  }

  /** The unit tests' number with a wrong prefix, abc.1234.5678.90. */
  lemma AvsWrongPrefixExample(cc: CharClasses)
    ensures !AvsValid(cc, "abc.1234.5678.90")
  {
    var wrong := "abc.1234.5678.90";
    assert wrong[..3] != "756" by { assert wrong[0] == 'a'; }
  }

  /** The unit tests' number with letters in a group, 756.abcd.5678.90. */
  lemma AvsLettersExample(cc: CharClasses)
    ensures !AvsValid(cc, "756.abcd.5678.90")
  {
    var letters := "756.abcd.5678.90";
    assert letters[4] == 'a';
    assert !AvsValid(cc, letters) by {
      if AvsValid(cc, letters) {
        AvsValidIsAscii(cc, letters);
      }
    }
  }

  lemma WeightedSumStep(d: seq<nat>, k: nat)
    requires k < |d|
    ensures WeightedSum(d[..k + 1]) == WeightedSum(d[..k]) + if k % 2 == 0 then 2 * d[k] else d[k]
  {
    assert d[..k + 1][..k] == d[..k];
  }

  /** The weighted sum of thirteen digits, written out. */
  lemma ChecksumOf(d: seq<nat>)
    requires |d| == 13
    ensures WeightedSum(d) == 2 * d[0] + d[1] + 2 * d[2] + d[3] + 2 * d[4] + d[5] + 2 * d[6]
                              + d[7] + 2 * d[8] + d[9] + 2 * d[10] + d[11] + 2 * d[12]
  {
    assert d[..0] == [];
    WeightedSumStep(d, 0);
    assert WeightedSum(d[..1]) == 2 * d[0];
    WeightedSumStep(d, 1);
    assert WeightedSum(d[..2]) == 2 * d[0] + d[1];
    WeightedSumStep(d, 2);
    assert WeightedSum(d[..3]) == 2 * d[0] + d[1] + 2 * d[2];
    WeightedSumStep(d, 3);
    assert WeightedSum(d[..4]) == 2 * d[0] + d[1] + 2 * d[2] + d[3];
    WeightedSumStep(d, 4);
    WeightedSumStep(d, 5);
    WeightedSumStep(d, 6);
    assert WeightedSum(d[..7]) == 2 * d[0] + d[1] + 2 * d[2] + d[3] + 2 * d[4] + d[5] + 2 * d[6];
    WeightedSumStep(d, 7);
    WeightedSumStep(d, 8);
    WeightedSumStep(d, 9);
    WeightedSumStep(d, 10);
    WeightedSumStep(d, 11);
    WeightedSumStep(d, 12);
    assert d[..13] == d;
  }

  /** Each username the validation tests accept is accepted. */
  lemma TestUsernameAccepted(s: string)
    requires s == "utilisateur_01" || s == "Jean.Dupont" || s == "test-user"
    ensures UsernameValidation(s).Ok?
  {
    assert UsernamePattern(s) by {
      forall i | 0 <= i < |s| ensures IsUsernameChar(s[i]) { }
    }
    assert !HasDoubledSymbol(s) by {
      forall i | 0 <= i < |s| - 1 ensures !(s[i] in {'.', '_', '-'} && s[i + 1] == s[i]) { }
    }
    assert AsciiLower(s) !in ReservedUsernames by {
      var t := AsciiLower(s);
      assert |t| == |s| && t[0] == AsciiLowerChar(s[0]) && t[1] == AsciiLowerChar(s[1]);
    }
    UsernameRules(s);
  }

  /** Each username the conversion tests accept is accepted. */
  lemma TestConversionAccepted(s: string)
    requires s == "nom_utilisateur" || s == "user-123"
    ensures UsernameValidation(s).Ok?
  {
    assert UsernamePattern(s) by {
      forall i | 0 <= i < |s| ensures IsUsernameChar(s[i]) { }
    }
    assert !HasDoubledSymbol(s) by {
      forall i | 0 <= i < |s| - 1 ensures !(s[i] in {'.', '_', '-'} && s[i + 1] == s[i]) { }
    }
    assert AsciiLower(s) !in ReservedUsernames by {
      var t := AsciiLower(s);
      assert |t| == |s| && t[0] == AsciiLowerChar(s[0]) && t[1] == AsciiLowerChar(s[1]);
    }
    UsernameRules(s);
  }

  /** The accepted usernames of the unit tests. */
  lemma UsernameAcceptedExamples()
    ensures UsernameValidation("utilisateur_01").Ok?
    ensures UsernameValidation("Jean.Dupont").Ok?
    ensures UsernameValidation("test-user").Ok?
  {
    TestUsernameAccepted("utilisateur_01");
    TestUsernameAccepted("Jean.Dupont");
    TestUsernameAccepted("test-user");
  }

  /** Usernames of the unit tests rejected for their length. */
  lemma UsernameLengthExamples()
    ensures UsernameValidation("ab").Err?
    ensures UsernameValidation(seq(31, _ => 'a')).Err?
  {
    assert Utf8Length("ab") == 2;
    var long := seq(31, _ => 'a');
    assert AllAscii(long);
    Utf8LengthBounds(long);
  }

  /** Usernames of the unit tests rejected for their characters: a symbol at
      either end, a character outside the set (an `@`, a space). */
  lemma UsernameCharacterExamples()
    ensures UsernameValidation("_utilisateur").Err?
    ensures UsernameValidation("utilisateur_").Err?
    ensures UsernameValidation("utilisateur@name").Err?
    ensures UsernameValidation("utilisateur nom").Err?
  {
    var lead, trail, at := "_utilisateur", "utilisateur_", "utilisateur@name";
    assert !IsAsciiAlnum(lead[0]);
    assert !UsernamePattern(lead);
    assert !IsAsciiAlnum(trail[|trail| - 1]);
    assert !UsernamePattern(trail);
    assert !IsUsernameChar(at[11]);
    assert !UsernamePattern(at);
    var space := "utilisateur nom";
    assert !IsUsernameChar(space[11]);
    assert !UsernamePattern(space);
  }

  /** A doubled `.`, `_` or `-` anywhere rejects a username. */
  lemma DoubledRejected(s: string, i: nat)
    requires i + 1 < |s| && s[i] in {'.', '_', '-'} && s[i + 1] == s[i]
    ensures UsernameValidation(s).Err?
  {
    UsernameRules(s);
  }

  /** A username of the unit tests rejected for a doubled symbol. */
  lemma UsernameDoubledExample()
    ensures UsernameValidation("utilisateur..nom").Err?
  {
    DoubledRejected("utilisateur..nom", 11);
  }

  /** A reserved name is rejected. */
  lemma ReservedRejected(s: string)
    requires s in ReservedUsernames
    ensures UsernameValidation(s).Err?
  {
    assert AsciiLower(s) == s;
  }

  /** The conversions of the unit tests that wrap the name. */
  lemma UsernameConversionAccepted()
    ensures UsernameTryFrom("nom_utilisateur") == Ok(Username("nom_utilisateur"))
    ensures UsernameTryFrom("user-123") == Ok(Username("user-123"))
  {
    TestConversionAccepted("nom_utilisateur");
    TestConversionAccepted("user-123");
  }

  /** The conversions of the unit tests that refuse the name: a stray `@`,
      the empty name and a reserved one. */
  lemma UsernameConversionRejected()
    ensures UsernameTryFrom("nom@utilisateur").Err?
    ensures UsernameTryFrom("").Err? && UsernameTryFrom("root").Err?
  {
    var at := "nom@utilisateur";
    assert !IsUsernameChar(at[3]);
    assert !UsernamePattern(at);
    ReservedRejected("root");
  }
}
