/**
 * The user value objects of app/domain/values/users.py: Username, UserEmail and
 * UserTimezone. Each is validated when it is built; a failed check is one of the
 * ValueError kinds, tried in the order the source tries them.
 *
 * The three patterns are applied with Python's `re.match` and end in `$`, which
 * matches at the very end of the string or just before a single final "\n"; the
 * model keeps that allowance.
 */
module Values {
  import opened Wrappers
  import Decimal

  datatype ValueError =
    | EmptyUsername
    | InvalidUsernameLength(value: string)
    | InvalidUsernameCharacters(value: string)
    | EmptyEmail
    | InvalidEmailFormat(value: string)
    | EmptyTimezone
    | InvalidTimezone(value: string)

  datatype Username = Username(value: string) {
    function AsGenericType(): string { value }
  }

  datatype UserEmail = UserEmail(value: string) {
    function AsGenericType(): string { value }
  }

  datatype UserTimezone = UserTimezone(value: string) {
    function AsGenericType(): string { value }
  }

  /** True when `s` ends in the one "\n" that Python's `$` lets through. */
  predicate EndsInNewline(s: string) {
    |s| > 0 && s[|s| - 1] == '\n'
  }

  /** The part of `s` a `...$` pattern has to match: `s` without one final "\n". */
  function Anchored(s: string): (t: string)
    ensures t == s || (EndsInNewline(s) && t + "\n" == s)
  {
    if EndsInNewline(s) then s[..|s| - 1] else s
  }

  // ---------------------------------------------------------------- Username

  /** A character of the class `[a-zA-Z0-9_*\\-]`. */
  predicate IsUsernameChar(c: char) {
    'a' <= c <= 'z' || 'A' <= c <= 'Z' || '0' <= c <= '9' || c == '_' || c == '*' || c == '\\' || c == '-'
  }

  /** `re.match(r"^[a-zA-Z0-9_*\\-]+$", s)`. */
  predicate UsernamePattern(s: string) {
    var t := Anchored(s);
    |t| > 0 && forall i :: 0 <= i < |t| ==> IsUsernameChar(t[i])
  }

  /** `Username(value=s)`: empty, then length in range(3, 16), then the character class. */
  function NewUsername(s: string): (r: Result<Username, ValueError>)
    ensures r == Err(EmptyUsername) <==> s == []
    ensures r.Err? && r.error.InvalidUsernameLength? <==> s != [] && !(3 <= |s| <= 15)
    ensures r.Ok? <==>
      3 <= |s| <= 15 && forall i :: 0 <= i < |s| ==> IsUsernameChar(s[i]) || (i == |s| - 1 && s[i] == '\n')
    ensures r.Ok? ==> r.value.AsGenericType() == s
    ensures r.Err? ==> r.error in {EmptyUsername, InvalidUsernameLength(s), InvalidUsernameCharacters(s)}
  {
    if s == [] then Err(EmptyUsername)
    else if !(3 <= |s| <= 15) then Err(InvalidUsernameLength(s))
    else if !UsernamePattern(s) then Err(InvalidUsernameCharacters(s))
    else Ok(Username(s))
  }

  // ---------------------------------------------------------------- UserEmail

  /** Python's `str.isspace`, which is what `\s` (and so `\S`) means in a str pattern. */
  predicate IsSpace(c: char) {
    c == ' ' || '\t' <= c <= '\r' || '\U{1c}' <= c <= '\U{1f}' || c == '\U{85}' || c == '\U{a0}'
    || c == '\U{1680}' || '\U{2000}' <= c <= '\U{200a}' || c == '\U{2028}' || c == '\U{2029}'
    || c == '\U{202f}' || c == '\U{205f}' || c == '\U{3000}'
  }

  predicate NoSpace(t: string) {
    forall i :: 0 <= i < |t| ==> !IsSpace(t[i])
  }

  /**
   * What `^\S+@\S+\.\S+$` accepts, as the regular expression reads: a string without
   * whitespace (one final "\n" aside) with some '@' that has a character before it,
   * followed by some '.' at least one character later and at least one before the end.
   */
  ghost predicate EmailShape(s: string) {
    var t := Anchored(s);
    NoSpace(t) && exists i, j :: 1 <= i && i + 2 <= j && j + 2 <= |t| && t[i] == '@' && t[j] == '.'
  }

  /** The least index `p >= k` with `t[p] == c`, or `|t|` when there is none. */
  function FirstFrom(t: string, c: char, k: nat): (p: nat)
    requires k <= |t|
    ensures k <= p <= |t|
    ensures p < |t| ==> t[p] == c
    ensures forall m :: k <= m < p ==> t[m] != c
    decreases |t| - k
  {
    if k == |t| then k else if t[k] == c then k else FirstFrom(t, c, k + 1)
  }

  /** The greatest index `p < k` with `t[p] == c`, or -1 when there is none. */
  function LastBefore(t: string, c: char, k: nat): (p: int)
    requires k <= |t|
    ensures -1 <= p < k
    ensures p >= 0 ==> t[p] == c
    ensures forall m :: p < m < k ==> t[m] != c
  {
    if k == 0 then -1 else if t[k - 1] == c then k - 1 else LastBefore(t, c, k - 1)
  }

  /** `re.match(r"^\S+@\S+\.\S+$", s)`, computed by locating the first usable '@' and the last usable '.'. */
  predicate EmailPattern(s: string) {
    var t := Anchored(s);
    |t| >= 1 && NoSpace(t) && FirstFrom(t, '@', 1) + 2 <= LastBefore(t, '.', |t| - 1)
  }

  /** The scan accepts exactly the strings the regular expression describes. */
  lemma EmailPatternMeaning(s: string)
    ensures EmailPattern(s) <==> EmailShape(s)
  {
    var t := Anchored(s);
    if EmailPattern(s) {
      var i, j := FirstFrom(t, '@', 1), LastBefore(t, '.', |t| - 1);
      assert 1 <= i && i + 2 <= j && j + 2 <= |t| && t[i] == '@' && t[j] == '.';
    }
    if EmailShape(s) {
      var i, j :| 1 <= i && i + 2 <= j && j + 2 <= |t| && t[i] == '@' && t[j] == '.';
      assert FirstFrom(t, '@', 1) <= i;
      assert LastBefore(t, '.', |t| - 1) >= j;
    }
  }

  /** `UserEmail(value=s)`: empty, then the pattern. */
  function NewEmail(s: string): (r: Result<UserEmail, ValueError>)
    ensures r == Err(EmptyEmail) <==> s == []
    ensures r.Ok? <==> EmailShape(s)
    ensures r.Ok? ==> r.value.AsGenericType() == s
    ensures r.Err? ==> r.error in {EmptyEmail, InvalidEmailFormat(s)}
  {
    EmailPatternMeaning(s);
    if s == [] then Err(EmptyEmail)
    else if !EmailPattern(s) then Err(InvalidEmailFormat(s))
    else Ok(UserEmail(s))
  }

  // ---------------------------------------------------------------- UserTimezone

  /**
   * The signed N of a zone name matching `^Etc/GMT[\+-]\d+$`: +N for "Etc/GMT+N",
   * -N for "Etc/GMT-N" (leading zeros allowed, no bound on N), None for any other name.
   */
  function EtcGmtNumber(s: string): Option<int> {
    var t := Anchored(s);
    if |t| >= 9 && t[..7] == "Etc/GMT" && (t[7] == '+' || t[7] == '-') && Decimal.AllDigits(t[8..]) then
      var n: int := Decimal.Value(t[8..]);
      Some(if t[7] == '+' then n else -n)
    else
      None
  }

  /** The zone name "Etc/GMT" + sign + digits, optionally followed by the "\n" that `$` tolerates. */
  function ZoneName(sign: char, digits: string, newline: bool): string {
    "Etc/GMT" + [sign] + digits + (if newline then "\n" else "")
  }

  predicate ZoneParts(sign: char, digits: string) {
    (sign == '+' || sign == '-') && |digits| >= 1 && Decimal.AllDigits(digits)
  }

  /** Every name built from a sign and a non-empty digit string is accepted, with that signed number. */
  lemma EtcGmtNumberOf(sign: char, digits: string, newline: bool)
    requires ZoneParts(sign, digits)
    ensures EtcGmtNumber(ZoneName(sign, digits, newline))
         == Some(if sign == '+' then Decimal.Value(digits) as int else -(Decimal.Value(digits) as int))
  {
    var t := "Etc/GMT" + [sign] + digits;
    var s := ZoneName(sign, digits, newline);
    assert |t| >= 9;
    if newline {
      assert s == t + "\n";
      assert s[..|s| - 1] == t;
    } else {
      assert s == t;
      assert s[|s| - 1] == digits[|digits| - 1];
    }
    assert Anchored(s) == t;
    assert t[..7] == "Etc/GMT";
    assert t[7] == sign;
    assert t[8..] == digits;
  }

  /** And every accepted name has that form. */
  lemma EtcGmtNumberShape(s: string)
    requires EtcGmtNumber(s).Some?
    ensures exists sign, digits, newline :: ZoneParts(sign, digits) && s == ZoneName(sign, digits, newline)
  {
    var t := Anchored(s);
    var newline := t != s;
    assert t == "Etc/GMT" + [t[7]] + t[8..];
    assert s == ZoneName(t[7], t[8..], newline);
  }

  /** `UserTimezone(value=s)`: empty, then the pattern. */
  function NewTimezone(s: string): (r: Result<UserTimezone, ValueError>)
    ensures r == Err(EmptyTimezone) <==> s == []
    ensures r.Ok? <==> EtcGmtNumber(s).Some?
    ensures r.Ok? ==> r.value.AsGenericType() == s
    ensures r.Err? ==> r.error in {EmptyTimezone, InvalidTimezone(s)}
  {
    if s == [] then Err(EmptyTimezone)
    else if EtcGmtNumber(s).None? then Err(InvalidTimezone(s))
    else Ok(UserTimezone(s))
  }

  /** A timezone value object that its own validation accepts. */
  predicate ValidTimezone(tz: UserTimezone) {
    NewTimezone(tz.value).Ok?
  }

  /** The default zone of a user entity. */
  const DefaultTimezone := UserTimezone("Etc/GMT+3")
}
