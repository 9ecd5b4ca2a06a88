/** The password tool, `generate_password` in tools/password_generator.py:41-88. */
module Password {
  import opened Wrappers
  import opened Text

  // The four character classes of Python's `string` module, in the order the tool adds them.
  const UPPERCASE: string := "ABCDEFGHIJKLMNOPQRSTUVWXYZ"
  const LOWERCASE: string := "abcdefghijklmnopqrstuvwxyz"
  const DIGITS: string := "0123456789"
  const PUNCTUATION: string := "!\"#$%&'()*+,-./:;<=>?@[\\]^_`{|}~"

  const DEFAULT_LENGTH: int := 12
  const NO_CLASS_ERROR: string := "At least one character type must be selected"

  datatype CharClass = Uppercase | Lowercase | Digit | Special

  /** `c.isupper()`, `c.islower()`, `c.isdigit()` and `c in string.punctuation`, for the ASCII
    * characters the tool draws from. */
  predicate InClass(c: char, k: CharClass) {
    match k
    case Uppercase => 'A' <= c <= 'Z'
    case Lowercase => 'a' <= c <= 'z'
    case Digit => '0' <= c <= '9'
    case Special => c in PUNCTUATION
  }

  function ClassChars(k: CharClass): string {
    match k
    case Uppercase => UPPERCASE
    case Lowercase => LOWERCASE
    case Digit => DIGITS
    case Special => PUNCTUATION
  }

  /** Each class string holds exactly the characters of its class. */
  lemma ClassCharsExact(k: CharClass, c: char)
    ensures c in ClassChars(k) <==> InClass(c, k)
  {
    match k
    case Uppercase => assert UPPERCASE == Run('A', 26);
    case Lowercase => assert LOWERCASE == Run('a', 26);
    case Digit => assert DIGITS == Run('0', 10);
    case Special =>
  }

  /** Punctuation is the four runs of ASCII between and after the digits and letters. */
  lemma PunctuationRuns()
    ensures PUNCTUATION == Run('!', 15) + Run(':', 7) + Run('[', 6) + Run('{', 4)
  {
    assert Run('!', 15) == "!\"#$%&'()*+,-./";
    assert Run(':', 7) == ":;<=>?@";
    assert Run('[', 6) == "[\\]^_`";
    assert Run('{', 4) == "{|}~";
  }

  /** A character is in at most one class. */
  lemma ClassesDisjoint(c: char, k: CharClass, k': CharClass)
    requires InClass(c, k) && InClass(c, k')
    ensures k == k'
  {
    PunctuationRuns();
  }

  /** The four `include_*` switches after their defaults. */
  datatype Selection = Selection(uppercase: bool, lowercase: bool, numbers: bool, special: bool)

  function Selected(s: Selection, k: CharClass): bool {
    match k
    case Uppercase => s.uppercase
    case Lowercase => s.lowercase
    case Digit => s.numbers
    case Special => s.special
  }

  /** What `params` holds; a missing key is None. */
  datatype Params = Params(length: Option<int>, includeUppercase: Option<bool>, includeLowercase: Option<bool>,
                           includeNumbers: Option<bool>, includeSpecial: Option<bool>)

  /** `params.get(..., True)` for the four switches, tools/password_generator.py:57-60. */
  function SelectionOf(p: Params): (s: Selection)
    ensures p == Params(p.length, None, None, None, None) ==> s == Selection(true, true, true, true)
  {
    Selection(p.includeUppercase.GetOr(true), p.includeLowercase.GetOr(true),
              p.includeNumbers.GetOr(true), p.includeSpecial.GetOr(true))
  }

  /** `params.get('length', 12)`, tools/password_generator.py:56. */
  function LengthOf(p: Params): (n: int)
    ensures p.length.None? ==> n == 12
  {
    p.length.GetOr(DEFAULT_LENGTH)
  }

  /** The character set the four switches select: the classes in the order upper, lower,
    * digits, punctuation. */
  function Charset(s: Selection): string {
    Part(s, Uppercase) + Part(s, Lowercase) + Part(s, Digit) + Part(s, Special)
  }

  /** The characters one class contributes to the set. */
  function Part(s: Selection, k: CharClass): string {
    if Selected(s, k) then ClassChars(k) else ""
  }

  /** `chars` built by successive `+=`, tools/password_generator.py:63-71. */
  method BuildCharset(s: Selection) returns (chars: string)
    ensures chars == Charset(s)
  {
    chars := "";
    if s.uppercase {
      chars := chars + ClassChars(Uppercase);
    }
    assert chars == Part(s, Uppercase);
    if s.lowercase {
      chars := chars + ClassChars(Lowercase);
    }
    Extended(chars, Part(s, Uppercase), s, Lowercase);
    if s.numbers {
      chars := chars + ClassChars(Digit);
    }
    Extended(chars, Part(s, Uppercase) + Part(s, Lowercase), s, Digit);
    if s.special {
      chars := chars + ClassChars(Special);
    }
    Extended(chars, Part(s, Uppercase) + Part(s, Lowercase) + Part(s, Digit), s, Special);
  }

  /** One `+=` step, taken or skipped. */
  lemma Extended(chars: string, before: string, s: Selection, k: CharClass)
    requires chars == (if Selected(s, k) then before + ClassChars(k) else before)
    ensures chars == before + Part(s, k)
  {
    if !Selected(s, k) {
      assert before + "" == before;
    }
  }

  /** A character is in the set exactly when its class is selected. */
  lemma CharsetMembers(s: Selection, c: char)
    ensures c in Charset(s) <==> exists k :: Selected(s, k) && InClass(c, k)
  {
    ClassCharsExact(Uppercase, c);
    ClassCharsExact(Lowercase, c);
    ClassCharsExact(Digit, c);
    ClassCharsExact(Special, c);
    if c in Charset(s) {
      if s.uppercase && c in UPPERCASE {
        assert Selected(s, Uppercase) && InClass(c, Uppercase);
      } else if s.lowercase && c in LOWERCASE {
        assert Selected(s, Lowercase) && InClass(c, Lowercase);
      } else if s.numbers && c in DIGITS {
        assert Selected(s, Digit) && InClass(c, Digit);
      } else {
        assert Selected(s, Special) && InClass(c, Special);
      }
    }
  }

  /** A character of the set is in a class only if that class was selected. */
  lemma CharsetExcludes(s: Selection, c: char, k: CharClass)
    requires c in Charset(s) && InClass(c, k)
    ensures Selected(s, k)
  {
    CharsetMembers(s, c);
    var k' :| Selected(s, k') && InClass(c, k');
    ClassesDisjoint(c, k, k');
  }

  /** The set is empty exactly when every switch is off. */
  lemma CharsetEmpty(s: Selection)
    ensures Charset(s) == "" <==> s == Selection(false, false, false, false)
  {
  }

  /** With the defaults the set is the 94 printable ASCII characters other than space, upper
    * case first. */
  lemma DefaultCharset()
    ensures Charset(Selection(true, true, true, true)) == UPPERCASE + LOWERCASE + DIGITS + PUNCTUATION
    ensures |Charset(Selection(true, true, true, true))| == 94
  {
  }

  /** `''.join(secrets.choice(chars) for _ in range(length))`; `pick(i)` is the index the i-th
    * `secrets.choice` draws, taken modulo the size of the set. */
  function ChoosePassword(chars: string, length: int, pick: nat -> nat): (password: string)
    requires chars != []
    ensures |password| == if length > 0 then length else 0
    ensures forall i :: 0 <= i < |password| ==> password[i] in chars
  {
    seq(if length > 0 then length else 0, i requires 0 <= i => chars[pick(i) % |chars|])
  }

  /** `any(... for c in password)`, scanning from the front. */
  function AnyInClass(s: string, k: CharClass): (b: bool)
    ensures b <==> exists i :: 0 <= i < |s| && InClass(s[i], k)
  {
    if s == [] then false
    else if InClass(s[0], k) then true
    else
      var rest := AnyInClass(s[1..], k);
      assert forall i :: 1 <= i < |s| ==> s[i] == s[1..][i - 1];
      rest
  }

  /** The dictionary the tool returns: a password with its statistics, or an error. */
  datatype PasswordResult =
    | Generated(password: string, length: int, containsUppercase: bool, containsLowercase: bool,
                containsNumbers: bool, containsSpecial: bool)
    | Failed(error: string)

  /** What the result reports for a class. */
  function Reports(r: PasswordResult, k: CharClass): bool
    requires r.Generated?
  {
    match k
    case Uppercase => r.containsUppercase
    case Lowercase => r.containsLowercase
    case Digit => r.containsNumbers
    case Special => r.containsSpecial
  }

  /** generate_password, tools/password_generator.py:41-86. */
  method GeneratePassword(params: Params, pick: nat -> nat) returns (r: PasswordResult)
    ensures var s := SelectionOf(params);
      r.Failed? <==> s == Selection(false, false, false, false)
    ensures r.Failed? ==> r.error == NO_CLASS_ERROR
    ensures r.Generated? ==>
      var chars, n := Charset(SelectionOf(params)), LengthOf(params);
      && |r.password| == (if n > 0 then n else 0)
      && r.length == |r.password|
      && (forall i :: 0 <= i < |r.password| ==> r.password[i] == chars[pick(i) % |chars|])
      && (forall i :: 0 <= i < |r.password| ==> r.password[i] in chars)
      && (forall k :: Reports(r, k) <==> exists i :: 0 <= i < |r.password| && InClass(r.password[i], k))
      && (forall k :: !Selected(SelectionOf(params), k) ==> !Reports(r, k))
  {
    var length := LengthOf(params);
    var s := SelectionOf(params);
    var chars := BuildCharset(s);
    CharsetEmpty(s);
    if chars == "" {
      return Failed(NO_CLASS_ERROR);
    }
    var password := ChoosePassword(chars, length, pick);
    r := Generated(password, |password|, AnyInClass(password, Uppercase), AnyInClass(password, Lowercase),
                   AnyInClass(password, Digit), AnyInClass(password, Special));
    assert forall k :: Reports(r, k) == AnyInClass(password, k);
    forall k | !Selected(s, k)
      ensures !Reports(r, k)
    {
      ExcludedClassAbsent(s, password, k);
    }
  }

  /** A string drawn from the set has no character of a class that was not selected. */
  lemma ExcludedClassAbsent(s: Selection, password: string, k: CharClass)
    requires forall i :: 0 <= i < |password| ==> password[i] in Charset(s)
    requires !Selected(s, k)
    ensures !AnyInClass(password, k)
  {
    forall i | 0 <= i < |password|
      ensures !InClass(password[i], k)
    {
      if InClass(password[i], k) {
        CharsetExcludes(s, password[i], k);
      }
    }
  }
}
