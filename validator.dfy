/**
 * The rune checks of `pkg/validator/onlyLetter.go`. Go's `unicode` tables
 * for symbols, punctuation and upper case are not reproduced: they arrive
 * as a `RuneClasses` value, and `AsciiAgrees` pins them down on ASCII.
 * `unicode.IsSpace` is small enough to be written out in `Text`.
 */
module Validator {
  import opened Text

  /** `unicode.IsSymbol`, `unicode.IsPunct` and `unicode.IsUpper`. */
  datatype RuneClasses = RuneClasses(isSymbol: char -> bool, isPunct: char -> bool, isUpper: char -> bool)

  /** Punctuation (categories Pc, Pd, Ps, Pe, Po) among the ASCII runes. */
  predicate AsciiPunct(c: char) {
    c in {'!', '"', '#', '%', '&', '\'', '(', ')', '*', ',', '-', '.', '/', ':', ';', '?', '@', '[', '\\', ']', '_', '{', '}'}
  }

  /** Symbols (categories Sm, Sc, Sk) among the ASCII runes. */
  predicate AsciiSymbol(c: char) {
    c in {'$', '+', '<', '=', '>', '^', '`', '|', '~'}
  }

  predicate AsciiUpper(c: char) {
    'A' <= c <= 'Z'
  }

  /** The classes agree with Unicode on the ASCII runes. */
  ghost predicate AsciiAgrees(u: RuneClasses) {
    forall c: char :: c as int < 0x80 ==>
      (u.isSymbol(c) <==> AsciiSymbol(c)) && (u.isPunct(c) <==> AsciiPunct(c)) && (u.isUpper(c) <==> AsciiUpper(c))
  }

  /** A rune `IsContainSymbol` objects to: a symbol, a space or punctuation other than '_'. */
  predicate Flagged(c: char, u: RuneClasses) {
    c != '_' && (u.isSymbol(c) || IsSpace(c) || u.isPunct(c))
  }

  ghost predicate ContainsSymbol(s: string, u: RuneClasses) {
    exists i :: 0 <= i < |s| && Flagged(s[i], u)
  }

  /** `IsContainSymbol`: stops at the first rune it objects to. */
  method IsContainSymbol(input: string, u: RuneClasses) returns (found: bool)
    ensures found <==> ContainsSymbol(input, u)
  {
    for i := 0 to |input|
      invariant forall k :: 0 <= k < i ==> !Flagged(input[k], u)
    {
      if input[i] != '_' && (u.isSymbol(input[i]) || IsSpace(input[i]) || u.isPunct(input[i])) {
        return true;
      }
    }
    return false;
  }

  /** The objection to a concatenation is an objection to one of its parts. */
  lemma ContainsSymbolAppend(a: string, b: string, u: RuneClasses)
    ensures ContainsSymbol(a + b, u) <==> ContainsSymbol(a, u) || ContainsSymbol(b, u)
  {
    var s := a + b;
    if ContainsSymbol(s, u) {
      var i :| 0 <= i < |s| && Flagged(s[i], u);
      if i >= |a| {
        assert b[i - |a|] == s[i];
      }
    }
    if ContainsSymbol(a, u) {
      var i :| 0 <= i < |a| && Flagged(a[i], u);
      assert s[i] == a[i];
    }
    if ContainsSymbol(b, u) {
      var i :| 0 <= i < |b| && Flagged(b[i], u);
      assert s[|a| + i] == b[i];
    }
  }

  predicate WordRune(c: char) {
    ('a' <= c <= 'z') || ('A' <= c <= 'Z') || ('0' <= c <= '9') || c == '_'
  }

  /** No letter, digit or '_' is flagged. */
  lemma WordRuneNotFlagged(c: char, u: RuneClasses)
    requires AsciiAgrees(u) && WordRune(c)
    ensures !Flagged(c, u)
  {
    assert c as int < 0x80;
  }

  /** Letters, digits and '_' pass: the underscore is punctuation, but exempt. */
  lemma WordsPass(s: string, u: RuneClasses)
    requires AsciiAgrees(u)
    requires forall i :: 0 <= i < |s| ==> WordRune(s[i])
    ensures !ContainsSymbol(s, u)
  {
    forall i | 0 <= i < |s|
      ensures !Flagged(s[i], u)
    {
      WordRuneNotFlagged(s[i], u);
    }
  }

  ghost predicate HasUpper(s: string, u: RuneClasses) {
    exists i :: 0 <= i < |s| && u.isUpper(s[i])
  }

  ghost predicate HasSymbolOrPunct(s: string, u: RuneClasses) {
    exists i :: 0 <= i < |s| && (u.isSymbol(s[i]) || u.isPunct(s[i]))
  }

  /**
   * The password rule: 9 to 71 bytes, at least one upper-case rune and at
   * least one symbol or punctuation rune ('_' counts here).
   */
  ghost predicate PasswordRejected(s: string, u: RuneClasses) {
    ByteLen(s) <= 8 || ByteLen(s) >= 72 || !HasUpper(s, u) || !HasSymbolOrPunct(s, u)
  }

  /** `IsNotValidPassword`: the length check, then one pass that raises two flags. */
  method IsNotValidPassword(input: string, u: RuneClasses) returns (rejected: bool)
    ensures rejected <==> PasswordRejected(input, u)
  {
    if ByteLen(input) <= 8 || ByteLen(input) >= 72 {
      return true;
    }
    var oneUpper, oneSymbol := false, false;
    for i := 0 to |input|
      invariant oneUpper <==> exists k :: 0 <= k < i && u.isUpper(input[k])
      invariant oneSymbol <==> exists k :: 0 <= k < i && (u.isSymbol(input[k]) || u.isPunct(input[k]))
    {
      if u.isUpper(input[i]) {
        oneUpper := true;
      }
      if u.isSymbol(input[i]) || u.isPunct(input[i]) {
        oneSymbol := true;
      }
    }
    if oneUpper && oneSymbol {
      return false;
    }
    return true;
  }

  /** Runes of three bytes each (U+0800 to U+FFFF, CJK among them) count three times towards the length. */
  lemma {:induction false} WideRunesByteLen(s: string)
    requires forall i :: 0 <= i < |s| ==> 0x800 <= s[i] as int < 0x1_0000
    ensures ByteLen(s) == 3 * |s|
  {
    if s != [] {
      WideRunesByteLen(s[1..]);
    }
  }

  /** Three runes of three bytes each already pass the length check: the bound counts bytes. */
  lemma ThreeWideRunesPassLength(s: string)
    requires |s| == 3 && forall i :: 0 <= i < 3 ==> 0x800 <= s[i] as int < 0x1_0000
    ensures ByteLen(s) == 9
  {
    WideRunesByteLen(s);
  }

  /** An ASCII password of eight characters is too short, whatever it contains. */
  lemma EightAsciiTooShort(s: string, u: RuneClasses)
    requires |s| == 8 && forall i :: 0 <= i < |s| ==> s[i] as int < 0x80
    ensures PasswordRejected(s, u)
  {
    ByteLenAscii(s);
  }

  /**
   * An ASCII password of 9 to 71 characters with an upper-case letter and a
   * punctuation or symbol character is accepted.
   */
  lemma AsciiPasswordAccepted(s: string, u: RuneClasses, i: nat, j: nat)
    requires AsciiAgrees(u)
    requires 8 < |s| < 72 && forall k :: 0 <= k < |s| ==> s[k] as int < 0x80
    requires i < |s| && j < |s| && AsciiUpper(s[i]) && (AsciiPunct(s[j]) || AsciiSymbol(s[j]))
    ensures !PasswordRejected(s, u)
  {
    ByteLenAscii(s);
    assert u.isUpper(s[i]);
    assert u.isSymbol(s[j]) || u.isPunct(s[j]);
  }

  /** "Secret_123" is a valid password: the underscore supplies the required symbol. */
  lemma UnderscorePasswordAccepted(u: RuneClasses)
    requires AsciiAgrees(u)
    ensures !PasswordRejected("Secret_123", u)
  {
    var s := "Secret_123";
    assert AsciiUpper(s[0]) && AsciiPunct(s[6]);
    AsciiPasswordAccepted(s, u, 0, 6);
  }
}
