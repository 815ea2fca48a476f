/**
 * `PasswordComplexityValidator`: a password needs an uppercase letter, a
 * digit and a special character. The three tests run in that order and
 * only the first one that fails is reported.
 */
module Passwords {
  import opened Wrappers

  /** The three complaints, one per test. */
  datatype Complaint = NoUpper | NoNumber | NoSpecial

  /** The `code` the validation error carries. */
  function Code(c: Complaint): string {
    match c
    case NoUpper => "password_no_upper"
    case NoNumber => "password_no_number"
    case NoSpecial => "password_no_special"
  }

  /** The characters of the special-character class: ASCII punctuation. */
  const Specials: string := "!@#$%^&*()_+-=[]{}|;:'\",.<>?/\\`~"

  /** The character classes the three tests search for. */
  datatype Class = Upper | Digit | Special

  predicate InClass(c: char, k: Class) {
    match k
    case Upper => 'A' <= c <= 'Z'
    case Digit => '0' <= c <= '9'
    case Special => c in Specials
  }

  /** `re.search('[...]', s)` for class `k`: does some character of `s` belong to it? */
  function Found(s: string, k: Class): (b: bool)
    ensures b <==> exists i :: 0 <= i < |s| && InClass(s[i], k)
  {
    if s == [] then false
    else if InClass(s[0], k) then true
    else
      var b := Found(s[1..], k);
      assert forall i :: 1 <= i < |s| ==> s[i] == s[1..][i - 1];
      b
  }

  /**
   * `validate(password)`: the first missing class, or None when the password
   * is accepted. No length is checked.
   */
  function Validate(password: string): (r: Option<Complaint>)
    ensures r.None? <==> Found(password, Upper) && Found(password, Digit) && Found(password, Special)
    ensures r == Some(NoUpper) <==> !Found(password, Upper)
    ensures r == Some(NoNumber) <==> Found(password, Upper) && !Found(password, Digit)
    ensures r == Some(NoSpecial) <==> Found(password, Upper) && Found(password, Digit) && !Found(password, Special)
  {
    if !Found(password, Upper) then Some(NoUpper)
    else if !Found(password, Digit) then Some(NoNumber)
    else if !Found(password, Special) then Some(NoSpecial)
    else None
  }

  /** The special class is exactly the printable ASCII characters that are neither letters nor digits nor space. */
  lemma SpecialsArePunctuation(c: char)
    ensures InClass(c, Special) <==>
      '!' <= c <= '~' && !('A' <= c <= 'Z') && !('a' <= c <= 'z') && !('0' <= c <= '9')
  {
  }

  /** The verdict depends only on which characters occur: reordering or repeating them changes nothing. */
  lemma {:induction false} SameCharactersSameVerdict(p: string, q: string)
    requires forall c :: c in p <==> c in q
    ensures Validate(p) == Validate(q)
  {
    forall k: Class ensures Found(p, k) == Found(q, k) {
      if Found(p, k) {
        var i :| 0 <= i < |p| && InClass(p[i], k);
        assert p[i] in q;
        var j :| 0 <= j < |q| && q[j] == p[i];
      }
      if Found(q, k) {
        var j :| 0 <= j < |q| && InClass(q[j], k);
        assert q[j] in p;
        var i :| 0 <= i < |p| && p[i] == q[j];
      }
    }
  }

  /** Adding characters never turns an accepted password into a rejected one. */
  lemma {:induction false} AcceptedExtends(p: string, q: string)
    requires Validate(p).None?
    ensures Validate(p + q).None? && Validate(q + p).None?
  {
    forall k: Class ensures Found(p + q, k) && Found(q + p, k) {
      var i :| 0 <= i < |p| && InClass(p[i], k);
      assert (p + q)[i] == p[i];
      assert (q + p)[|q| + i] == p[i];
    }
  }

  /** Three characters, one of each class, already make an accepted password: there is no length rule. */
  lemma ShortestAccepted()
    ensures Validate("A1!").None?
  {
    assert InClass("A1!"[0], Upper) && InClass("A1!"[1], Digit) && InClass("A1!"[2], Special);
  }
}
