/** The form-field validators of lab02's `utils/input.rs`: e-mail address,
    name, UUID-shaped id, JSON boolean and bounded text. */
module WebInput {
  import opened Wrappers
  import opened Text

  // ---------------------------------------------------------------------
  // E-mail: the regular expression ^[^\s@]+@[^\s@]+\.[^\s@]+$
  // ---------------------------------------------------------------------

  /** Every character is neither white space nor `@` (the class `[^\s@]`). */
  predicate Plain(cc: CharClasses, t: string) {
    forall k :: 0 <= k < |t| ==> !cc.whitespace(t[k]) && t[k] != '@'
  }

  /** The e-mail regular expression, read as a split of the input into a
      non-empty local part, `@`, a non-empty host, `.`, and a non-empty last
      label, none of which holds white space or `@`. */
  function ValidEmail(cc: CharClasses, s: string): (ok: bool)
    ensures ok ==> exists i :: 0 < i < |s| - 3 && s[i] == '@' && forall k :: 0 <= k < |s| && s[k] == '@' ==> k == i
  {
    if (exists i, j :: 0 < i && i + 1 < j && j + 1 < |s| && s[i] == '@' && s[j] == '.'
          && Plain(cc, s[..i]) && Plain(cc, s[i + 1..j]) && Plain(cc, s[j + 1..]))
    then
      var i, j :| 0 < i && i + 1 < j && j + 1 < |s| && s[i] == '@' && s[j] == '.'
        && Plain(cc, s[..i]) && Plain(cc, s[i + 1..j]) && Plain(cc, s[j + 1..]);
      OnlyAt(cc, s, i, j);
      true
    else false
  }

  /** A split the e-mail expression accepts has its `@` at `i` and nowhere else. */
  lemma OnlyAt(cc: CharClasses, s: string, i: int, j: int)
    requires 0 < i && i + 1 < j && j + 1 < |s| && s[i] == '@' && s[j] == '.'
    requires Plain(cc, s[..i]) && Plain(cc, s[i + 1..j]) && Plain(cc, s[j + 1..])
    ensures forall k :: 0 <= k < |s| && s[k] == '@' ==> k == i
  {
    forall k | 0 <= k < |s| && k != i ensures s[k] != '@' {
      if k < i {
        assert s[k] == s[..i][k];
      } else if i < k < j {
        assert s[k] == s[i + 1..j][k - i - 1];
      } else if j < k {
        assert s[k] == s[j + 1..][k - j - 1];
      }
    }
  }

  /** The domain has a dot with text on both sides. */
  predicate HasInteriorDot(d: string) {
    exists j :: 0 < j < |d| - 1 && d[j] == '.'
  }

  /** The split of an address at its `@`: a non-empty local part, and a
      domain with a dot that has text on both sides, neither holding white
      space or `@`. */
  predicate SplitAt(cc: CharClasses, s: string, i: int) {
    0 < i < |s| && s[i] == '@' && Plain(cc, s[..i]) && Plain(cc, s[i + 1..]) && HasInteriorDot(s[i + 1..])
  }

  lemma EmailSplit(cc: CharClasses, s: string, i: int, j: int)
    requires cc.Consistent()
    requires 0 < i && i + 1 < j && j + 1 < |s| && s[i] == '@' && s[j] == '.'
    requires Plain(cc, s[..i]) && Plain(cc, s[i + 1..j]) && Plain(cc, s[j + 1..])
    ensures SplitAt(cc, s, i)
  {
    cc.AsciiAgreement('.');
    var d := s[i + 1..];
    forall k | 0 <= k < |d| ensures !cc.whitespace(d[k]) && d[k] != '@' {
      if i + 1 + k < j {
        assert d[k] == s[i + 1..j][k];
      } else if i + 1 + k > j {
        assert d[k] == s[j + 1..][i + k - j];
      }
    }
    assert d[j - i - 1] == '.';
  }

  lemma EmailJoin(cc: CharClasses, s: string, i: int) returns (j: int)
    requires SplitAt(cc, s, i)
    ensures 0 < i && i + 1 < j && j + 1 < |s| && s[i] == '@' && s[j] == '.'
    ensures Plain(cc, s[..i]) && Plain(cc, s[i + 1..j]) && Plain(cc, s[j + 1..])
  {
    var d := s[i + 1..];
    var j' :| 0 < j' < |d| - 1 && d[j'] == '.';
    j := i + 1 + j';
    assert s[i + 1..j] == d[..j'];
    assert s[j + 1..] == d[j' + 1..];
  }

  /** An address is accepted exactly when it has one `@` with a non-empty
      local part before it, no white space anywhere, and a domain holding a
      dot with text on both sides. */
  lemma EmailRules(cc: CharClasses, s: string)
    requires cc.Consistent()
    ensures ValidEmail(cc, s) <==> exists i :: SplitAt(cc, s, i)
  {
    if ValidEmail(cc, s) {
      var i, j :| 0 < i && i + 1 < j && j + 1 < |s| && s[i] == '@' && s[j] == '.'
        && Plain(cc, s[..i]) && Plain(cc, s[i + 1..j]) && Plain(cc, s[j + 1..]);
      EmailSplit(cc, s, i, j);
    }
    if exists i :: SplitAt(cc, s, i) {
      var i :| SplitAt(cc, s, i);
      var j := EmailJoin(cc, s, i);
    }
  }

  /** An ASCII address without white space, with a single `@` at `i` and a
      dot at `j` further on, leaving every part non-empty, is accepted. */
  lemma AsciiEmailAccepted(cc: CharClasses, s: string, i: int, j: int)
    requires cc.Consistent()
    requires 0 < i && i + 1 < j && j + 1 < |s| && s[i] == '@' && s[j] == '.'
    requires forall k :: 0 <= k < |s| ==> IsAscii(s[k]) && !IsAsciiWhitespace(s[k]) && (s[k] == '@' ==> k == i)
    ensures ValidEmail(cc, s)
  {
    forall k | 0 <= k < |s| ensures !cc.whitespace(s[k]) {
      cc.AsciiAgreement(s[k]);
    }
    assert Plain(cc, s[..i]) && Plain(cc, s[i + 1..j]) && Plain(cc, s[j + 1..]);
  }

  /** The unit tests' accepted addresses. */
  lemma EmailAcceptedExamples(cc: CharClasses)
    requires cc.Consistent()
    ensures ValidEmail(cc, "test@example.com")
    ensures ValidEmail(cc, "user.name+tag+sorting@example.com")
  {
    AsciiEmailAccepted(cc, "test@example.com", 4, 12);
    TaggedAddressAccepted(cc, "user.name+tag+sorting@example.com");
  }

  lemma TaggedAddressAccepted(cc: CharClasses, s: string)
    requires cc.Consistent() && s == "user.name+tag+sorting@example.com"
    ensures ValidEmail(cc, s)
  {
    forall k | 0 <= k < |s|
      ensures IsAscii(s[k]) && !IsAsciiWhitespace(s[k]) && (s[k] == '@' ==> k == 21)
    {
    }
    AsciiEmailAccepted(cc, s, 21, 29);
  }

  /** An address with no `@` at a position after the first is rejected. */
  lemma NoLaterAtRejected(cc: CharClasses, s: string)
    requires forall k :: 0 < k < |s| ==> s[k] != '@'
    ensures !ValidEmail(cc, s)
  {
  }

  /** The unit tests' rejected addresses without a usable `@`: none at all,
      and one that leaves the local part empty. */
  lemma EmailMissingPartExamples(cc: CharClasses)
    ensures !ValidEmail(cc, "plainaddress")
    ensures !ValidEmail(cc, "@missingusername.com")
  {
    var a := "plainaddress";
    assert forall k :: 0 < k < |a| ==> a[k] != '@';
    NoLaterAtRejected(cc, a);
    var b := "@missingusername.com";
    assert forall k :: 0 < k < |b| ==> b[k] != '@';
    NoLaterAtRejected(cc, b);
  }

  /** The unit tests' address with an empty host, `username@.com`. */
  lemma EmailEmptyHostExample(cc: CharClasses)
    ensures !ValidEmail(cc, "username@.com")
  {
    var c := "username@.com";
    assert forall k :: 0 <= k < |c| && k != 8 ==> c[k] != '@';
    assert forall k :: 9 < k < |c| ==> c[k] != '.';
  }

  /** The unit tests' address with two `@`. */
  lemma EmailTwoAtExample(cc: CharClasses)
    ensures !ValidEmail(cc, "username@domain@domain.com")
  {
    var d := "username@domain@domain.com";
    assert forall k :: 0 <= k < |d| && k != 8 && k != 15 ==> d[k] != '@';
    assert forall k :: 0 <= k < |d| && k != 22 ==> d[k] != '.';
    assert !Plain(cc, d[9..22]) by { assert d[9..22][6] == '@'; }
    assert !Plain(cc, d[..15]) by { assert d[..15][8] == '@'; }
  }

  // ---------------------------------------------------------------------
  // Names
  // ---------------------------------------------------------------------

  /** A non-empty name of at most 50 bytes made of letters, white space and
      dashes. */
  function ValidName(cc: CharClasses, s: string): (ok: bool)
    ensures ok ==> 1 <= |s| <= 50 && Utf8Length(s) <= 50
  {
    Utf8LengthBounds(s);
    |s| > 0 && Utf8Length(s) <= 50
    && forall k :: 0 <= k < |s| ==> cc.alphabetic(s[k]) || cc.whitespace(s[k]) || s[k] == '-'
  }

  /** An accepted name has between 1 and 50 characters; an ASCII name is
      accepted exactly when it has between 1 and 50 characters, each an
      ASCII letter, ASCII white space or a dash. */
  lemma NameRules(cc: CharClasses, s: string)
    requires cc.Consistent()
    ensures ValidName(cc, s) ==> 1 <= |s| <= 50
    ensures Utf8Length(s) > 50 ==> !ValidName(cc, s)
    ensures AllAscii(s) ==>
              (ValidName(cc, s) <==>
                 1 <= |s| <= 50
                 && forall k :: 0 <= k < |s| ==> IsAsciiAlpha(s[k]) || IsAsciiWhitespace(s[k]) || s[k] == '-')
  {
    Utf8LengthBounds(s);
    forall k | 0 <= k < |s| && IsAscii(s[k]) ensures
      (cc.alphabetic(s[k]) <==> IsAsciiAlpha(s[k])) && (cc.whitespace(s[k]) <==> IsAsciiWhitespace(s[k]))
    {
      cc.AsciiAgreement(s[k]);
    }
  }

  /** The bound is on bytes: a name of more than 25 characters, none of them
      ASCII, is rejected, however few characters it has. */
  lemma WideNameRejected(cc: CharClasses, s: string)
    requires |s| > 25 && forall k :: 0 <= k < |s| ==> !IsAscii(s[k])
    ensures !ValidName(cc, s)
  {
    NonAsciiLength(s);
  }

  /** Text of more than maxLen / 2 non-ASCII characters is rejected. */
  lemma WideTextRejected(t: string, maxLen: nat)
    requires 2 * |t| > maxLen && forall k :: 0 <= k < |t| ==> !IsAscii(t[k])
    ensures !ValidText(t, maxLen)
  {
    NonAsciiLength(t);
  }

  /** Each name the unit tests accept is accepted. */
  lemma TestNameAccepted(cc: CharClasses, a: string)
    requires cc.Consistent() && (a == "John Doe" || a == "Jane" || a == "Jean-Claude")
    ensures ValidName(cc, a)
  {
    assert AllAscii(a);
    NameRules(cc, a);
  }

  /** The unit tests' accepted names. */
  lemma NameAcceptedExamples(cc: CharClasses)
    requires cc.Consistent()
    ensures ValidName(cc, "John Doe") && ValidName(cc, "Jane") && ValidName(cc, "Jean-Claude")
  {
    TestNameAccepted(cc, "John Doe");
    TestNameAccepted(cc, "Jane");
    TestNameAccepted(cc, "Jean-Claude");
  }

  /** The unit tests' rejected names: digits, empty, and 51 letters. */
  lemma NameRejectedExamples(cc: CharClasses)
    requires cc.Consistent()
    ensures !ValidName(cc, "John123") && !ValidName(cc, "")
    ensures !ValidName(cc, seq(51, _ => 'A'))
  {
    var c := "John123";
    cc.AsciiAgreement(c[4]);
    assert !cc.alphabetic(c[4]) && !cc.whitespace(c[4]);
    NameRules(cc, seq(51, _ => 'A'));
  }

  // ---------------------------------------------------------------------
  // Ids: 36 bytes, lower-cased, matching the UUID pattern
  // ---------------------------------------------------------------------

  predicate IsDashPosition(k: int) {
    k == 8 || k == 13 || k == 18 || k == 23
  }

  predicate IsLowerHex(c: char) {
    '0' <= c <= '9' || 'a' <= c <= 'f'
  }

  predicate IsHex(c: char) {
    '0' <= c <= '9' || 'a' <= c <= 'f' || 'A' <= c <= 'F'
  }

  /** The pattern ^[0-9a-f]{8}-[0-9a-f]{4}-[0-9a-f]{4}-[0-9a-f]{4}-[0-9a-f]{12}$. */
  predicate UuidPattern(t: string) {
    |t| == 36 && forall k :: 0 <= k < 36 ==> if IsDashPosition(k) then t[k] == '-' else IsLowerHex(t[k])
  }

  /** 36 bytes long, and the lower-cased text matches the UUID pattern.
      Lower-casing is modelled on ASCII: no other character lower-cases into
      the pattern's alphabet. */
  function ValidId(s: string): (ok: bool)
    ensures ok ==> |s| == 36 && forall k :: 0 <= k < |s| ==> s[k] == '-' || IsHex(s[k])
  {
    Utf8Length(s) == 36 && UuidPattern(AsciiLower(s))
  }

  /** An id is accepted exactly when it has 36 characters, dashes at the four
      group boundaries and hexadecimal digits of either case elsewhere. */
  lemma IdRules(s: string)
    ensures ValidId(s) <==>
              |s| == 36 && forall k :: 0 <= k < 36 ==> if IsDashPosition(k) then s[k] == '-' else IsHex(s[k])
  {
    Utf8LengthBounds(s);
    var t := AsciiLower(s);
    if UuidPattern(t) {
      forall k | 0 <= k < |s| ensures IsAscii(s[k]) {
        assert IsAscii(t[k]);
      }
      forall k | 0 <= k < 36 && !IsDashPosition(k) ensures IsHex(s[k]) {
        assert IsLowerHex(t[k]);
      }
    }
    if |s| == 36 && forall k :: 0 <= k < 36 ==> if IsDashPosition(k) then s[k] == '-' else IsHex(s[k]) {
      forall k | 0 <= k < |s| ensures IsAscii(s[k]) {
        assert IsDashPosition(k) || IsHex(s[k]);
      }
    }
  }

  /** Letter case does not matter to id validation. */
  lemma IdCaseInsensitive(s: string)
    ensures ValidId(s) <==> ValidId(AsciiLower(s))
  {
    IdRules(s);
    IdRules(AsciiLower(s));
  }

  /** The unit tests' accepted UUID. */
  lemma IdAcceptedExample()
    ensures ValidId("123e4567-e89b-12d3-a456-426614174000")
  {
    var good := "123e4567-e89b-12d3-a456-426614174000";
    forall k | 0 <= k < 36 ensures if IsDashPosition(k) then good[k] == '-' else IsHex(good[k]) {
    }
    IdRules(good);
  }

  /** The unit tests' rejected ids of the wrong length: no dashes, too short. */
  lemma IdLengthExamples()
    ensures !ValidId("123e4567e89b12d3a456426614174000")
    ensures !ValidId("short-id")
  {
    IdRules("123e4567e89b12d3a456426614174000");
    IdRules("short-id");
  }

  /** The unit tests' rejected id with a stray letter. */
  lemma IdStrayLetterExample()
    ensures !ValidId("123e4567-e89b-12d3-a456-42661417400X")
  {
    var stray := "123e4567-e89b-12d3-a456-42661417400X";
    IdRules(stray);
    assert !IsHex(stray[35]);
  }

  // ---------------------------------------------------------------------
  // Booleans and text
  // ---------------------------------------------------------------------

  /** A JSON value, as a request body carries it. */
  datatype Json =
    | JNull
    | JBool(b: bool)
    | JNumber(n: int)
    | JString(s: string)
    | JArray(items: seq<Json>)
    | JObject(fields: map<string, Json>)

  /** The value is present and is a JSON boolean. */
  function ValidBool(v: Option<Json>): (ok: bool)
    ensures ok <==> v == Some(JBool(true)) || v == Some(JBool(false))
  {
    match v
    case None => false
    case Some(j) => j.JBool?
  }

  /** The unit tests' values: both booleans, the string "true", and nothing. */
  lemma BoolExamples()
    ensures ValidBool(Some(JBool(true))) && ValidBool(Some(JBool(false)))
    ensures !ValidBool(Some(JString("true"))) && !ValidBool(None)
  {
  }

  /** Non-empty text of at most `maxLen` bytes. */
  function ValidText(t: string, maxLen: nat): (ok: bool)
    ensures ok ==> 1 <= |t| <= maxLen && Utf8Length(t) <= maxLen
  {
    Utf8LengthBounds(t);
    |t| > 0 && Utf8Length(t) <= maxLen
  }

  /** Accepted text has between 1 and `maxLen` characters, and ASCII text is
      accepted exactly then. */
  lemma TextRules(t: string, maxLen: nat)
    ensures ValidText(t, maxLen) ==> 1 <= |t| <= maxLen
    ensures Utf8Length(t) > maxLen ==> !ValidText(t, maxLen)
    ensures AllAscii(t) ==> (ValidText(t, maxLen) <==> 1 <= |t| <= maxLen)
  {
    Utf8LengthBounds(t);
  }

  /** The unit tests' texts. */
  lemma TextExamples()
    ensures ValidText("This is a valid text.", 50) && ValidText("Short text", 10)
    ensures !ValidText("", 50) && !ValidText(seq(51, _ => 'A'), 50)
  {
    var a, b := "This is a valid text.", "Short text";
    assert AllAscii(a) && AllAscii(b);
    TextRules(a, 50);
    TextRules(b, 10);
    TextRules(seq(51, _ => 'A'), 50);
  }
}
