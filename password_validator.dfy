/**
 * Password-quality validator (app/utils/password_validator.py).
 *
 * The validator counts, character by character, how many characters of the
 * password fall in each of four classes, then applies five rules in a fixed
 * order and reports the first one that fails. The per-character tasks of the
 * source never suspend, so their scheduling does not matter and the counting is
 * a plain loop.
 */
module PasswordRules {
  import opened Wrappers

  datatype CharType = LOWER | UPPER | DIGIT | SYMBOL

  /** The characters `is_special_char` accepts (the literal of the source, quotes included). */
  const SpecialCharacters: string := "\"!@#$%^&*()-+?_=,<>/\""

  const LowerMessage: string := "Password should contains at least one lower character"
  const UpperMessage: string := "Password should contains at least one upper character"
  const DigitMessage: string := "Password should contains at least one digit character"
  const SymbolMessage: string := "Password should contains at least one special character"
  const LengthMessage: string := "Password should contains at least contains 8 characters"

  /** `ch.islower()`, for ASCII letters. */
  predicate IsLower(ch: char) {
    'a' <= ch <= 'z'
  }

  /** `ch.isupper()`, for ASCII letters. */
  predicate IsUpper(ch: char) {
    'A' <= ch <= 'Z'
  }

  /** `is_special_char`. */
  predicate IsSpecialChar(ch: char) {
    ch in SpecialCharacters
  }

  /** Whether `_check_char_type` increments class `t` for `ch`. */
  predicate HasType(ch: char, t: CharType) {
    match t
    case LOWER => IsLower(ch)
    case UPPER => IsUpper(ch)
    case DIGIT => '0' <= ch <= '9'
    case SYMBOL => IsSpecialChar(ch)
  }

  /** How many characters of `s` belong to class `t`. */
  function Count(s: string, t: CharType): (n: nat)
    ensures n <= |s|
  {
    if s == [] then 0
    else Count(s[..|s| - 1], t) + (if HasType(s[|s| - 1], t) then 1 else 0)
  }

  /** The five minimums a validator enforces. */
  datatype Rules = Rules(minChars: int, minLower: int, minUpper: int, minDigit: int, minSymbol: int)

  const DefaultRules: Rules := Rules(8, 1, 1, 1, 1)

  ghost predicate HasAllTypes(results: map<CharType, int>) {
    forall t: CharType :: t in results
  }

  lemma FourKeysAreAll(m: map<CharType, int>)
    requires LOWER in m && UPPER in m && DIGIT in m && SYMBOL in m
    ensures HasAllTypes(m)
  {
    forall t: CharType ensures t in m {
      match t
      case LOWER =>
      case UPPER =>
      case DIGIT =>
      case SYMBOL =>
    }
  }

  /** The rule chain of `validate_and_wait`: lower, upper, digit, symbol, length; first failure wins. */
  function FirstFailure(results: map<CharType, int>, length: nat, r: Rules): (err: Option<string>)
    requires HasAllTypes(results)
  {
    if results[LOWER] < r.minLower then Some(LowerMessage)
    else if results[UPPER] < r.minUpper then Some(UpperMessage)
    else if results[DIGIT] < r.minDigit then Some(DigitMessage)
    else if results[SYMBOL] < r.minSymbol then Some(SymbolMessage)
    else if length < r.minChars then Some(LengthMessage)
    else None
  }

  /** The class counts of a whole password. */
  function Tally(password: string): (m: map<CharType, int>)
    ensures HasAllTypes(m)
    ensures forall t: CharType :: m[t] == Count(password, t)
  {
    var m := map[LOWER := Count(password, LOWER), UPPER := Count(password, UPPER),
                 DIGIT := Count(password, DIGIT), SYMBOL := Count(password, SYMBOL)];
    FourKeysAreAll(m);
    m
  }

  /** What a freshly built validator answers for `password`. */
  function CheckPassword(password: string): Option<string> {
    FirstFailure(Tally(password), |password|, DefaultRules)
  }

  /** A class count is positive exactly when some character of that class occurs. */
  lemma {:induction false} CountPositiveIff(s: string, t: CharType)
    ensures Count(s, t) >= 1 <==> exists i :: 0 <= i < |s| && HasType(s[i], t)
  {
    if s != [] {
      var p := s[..|s| - 1];
      CountPositiveIff(p, t);
      if exists i :: 0 <= i < |p| && HasType(p[i], t) {
        var i :| 0 <= i < |p| && HasType(p[i], t);
        assert s[i] == p[i];
      }
      if exists i :: 0 <= i < |s| && HasType(s[i], t) {
        var i :| 0 <= i < |s| && HasType(s[i], t);
        if i < |p| {
          assert p[i] == s[i];
        }
      }
    }
  }

  ghost predicate Contains(s: string, t: CharType) {
    exists i :: 0 <= i < |s| && HasType(s[i], t)
  }

  /**
   * The full rule chain on character occurrences: each message is returned
   * exactly when its rule fails and every earlier rule passes, and no message
   * exactly when the password has all four classes and at least 8 characters.
   */
  lemma CheckPasswordSpec(p: string)
    ensures CheckPassword(p) == Some(LowerMessage) <==> !Contains(p, LOWER)
    ensures CheckPassword(p) == Some(UpperMessage) <==> Contains(p, LOWER) && !Contains(p, UPPER)
    ensures CheckPassword(p) == Some(DigitMessage) <==>
      Contains(p, LOWER) && Contains(p, UPPER) && !Contains(p, DIGIT)
    ensures CheckPassword(p) == Some(SymbolMessage) <==>
      Contains(p, LOWER) && Contains(p, UPPER) && Contains(p, DIGIT) && !Contains(p, SYMBOL)
    ensures CheckPassword(p) == Some(LengthMessage) <==>
      Contains(p, LOWER) && Contains(p, UPPER) && Contains(p, DIGIT) && Contains(p, SYMBOL) && |p| < 8
    ensures CheckPassword(p) == None <==>
      Contains(p, LOWER) && Contains(p, UPPER) && Contains(p, DIGIT) && Contains(p, SYMBOL) && |p| >= 8
  {
    CountPositiveIff(p, LOWER);
    CountPositiveIff(p, UPPER);
    CountPositiveIff(p, DIGIT);
    CountPositiveIff(p, SYMBOL);
  }

  /** A short password without a lowercase letter gets the lowercase message, not the length one. */
  lemma ShortWithoutLowerGetsLowerMessage(p: string)
    requires |p| < 8 && forall i :: 0 <= i < |p| ==> !IsLower(p[i])
    ensures CheckPassword(p) == Some(LowerMessage)
  {
    CheckPasswordSpec(p);
  }

  /** The usage example of the source: "aRdi-1fds*" passes every rule. */
  lemma DocumentedExamplePasses()
    ensures CheckPassword("aRdi-1fds*") == None
  {
    var p := "aRdi-1fds*";
    assert HasType(p[0], LOWER) && HasType(p[1], UPPER) && HasType(p[5], DIGIT) && HasType(p[4], SYMBOL);
    CheckPasswordSpec(p);
  }

  /** `PasswordValidator`: a password, its rules and the running class counts. */
  class PasswordValidator {
    var password: string
    var minChars: int
    var minLowerChars: int
    var minUpperChars: int
    var minDigitChars: int
    var minSymbolChars: int
    var results: map<CharType, int>

    ghost predicate Valid()
      reads this
    {
      HasAllTypes(results)
    }

    function RulesOf(): Rules
      reads this
    {
      Rules(minChars, minLowerChars, minUpperChars, minDigitChars, minSymbolChars)
    }

    /** `__init__`: the default rules and every count at 0. */
    constructor (password: string)
      ensures Valid() && this.password == password && RulesOf() == DefaultRules
      ensures forall t: CharType :: t in results && results[t] == 0
    {
      this.password := password;
      minChars := 8;
      minLowerChars := 1;
      minUpperChars := 1;
      minDigitChars := 1;
      minSymbolChars := 1;
      var zero := map[LOWER := 0, UPPER := 0, DIGIT := 0, SYMBOL := 0];
      FourKeysAreAll(zero);
      results := zero;
    }

    /** `_check_char_type`: increments every class `ch` belongs to. */
    method CheckCharType(ch: char)
      requires Valid()
      modifies this`results
      ensures Valid()
      ensures forall t: CharType :: results[t] == old(results[t]) + (if HasType(ch, t) then 1 else 0)
    {
      if IsLower(ch) {
        results := results[LOWER := results[LOWER] + 1];
      }
      if IsUpper(ch) {
        results := results[UPPER := results[UPPER] + 1];
      }
      if '0' <= ch <= '9' {
        results := results[DIGIT := results[DIGIT] + 1];
      }
      if IsSpecialChar(ch) {
        results := results[SYMBOL := results[SYMBOL] + 1];
      }
    }

    /**
     * `validate_and_wait`: adds the class counts of the password to `results`
     * and returns the first failing rule's message. Only `results` changes.
     */
    method ValidateAndWait() returns (err: Option<string>)
      requires Valid()
      modifies this`results
      ensures Valid()
      ensures forall t: CharType :: results[t] == old(results[t]) + Count(password, t)
      ensures err == FirstFailure(results, |password|, RulesOf())
      ensures (forall t: CharType :: old(results[t]) == 0) && RulesOf() == DefaultRules ==>
        err == CheckPassword(password)
    {
      var i := 0;
      while i < |password|
        invariant 0 <= i <= |password|
        invariant Valid()
        invariant forall t: CharType :: results[t] == old(results[t]) + Count(password[..i], t)
      {
        CheckCharType(password[i]);
        assert password[..i + 1][..i] == password[..i];
        i := i + 1;
      }
      assert password[..i] == password;
      err := FirstFailure(results, |password|, RulesOf());
    }
  }
}
