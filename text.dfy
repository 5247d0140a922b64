/** Case folding of type names, as `str.lower` does it for the letters that
    can occur in a calculation type name. */
module Text {

  predicate IsUpper(c: char)
  {
    'A' <= c <= 'Z'
  }

  /** The lower-case form of one character: A-Z become a-z, every other
      character is left as it is. */
  function LowerChar(c: char): (r: char)
    ensures !IsUpper(r)
    ensures IsUpper(c) ==> r != c && r as int - c as int == 'a' as int - 'A' as int
    ensures !IsUpper(c) ==> r == c
  {
    if IsUpper(c) then (c as int - 'A' as int + 'a' as int) as char else c
  }

  /** `s.lower()`: the one string with no upper-case letter that equals `s`
      up to letter case. */
  function Lower(s: string): (r: string)
    ensures IsLower(r)
    ensures SameIgnoringCase(r, s)
  {
    seq(|s|, i requires 0 <= i < |s| => LowerChar(s[i]))
  }

  /** No character of `s` is an upper-case letter. */
  predicate IsLower(s: string)
  {
    forall i :: 0 <= i < |s| ==> !IsUpper(s[i])
  }

  /** `s` and `t` differ at most in the case of their letters. */
  predicate SameIgnoringCase(s: string, t: string)
  {
    |s| == |t| && forall i :: 0 <= i < |s| ==> LowerChar(s[i]) == LowerChar(t[i])
  }

  /** A string that is already lower-case is its own lower-case form, and
      every lower-case form is lower-case. */
  lemma LowerFixesLower(s: string)
    ensures IsLower(Lower(s))
    ensures IsLower(s) <==> Lower(s) == s
  {
  }

  /** Nothing but `Lower(s)` is both lower-case and equal to `s` up to
      letter case. */
  lemma LowerUnique(s: string, r: string)
    requires IsLower(r) && SameIgnoringCase(r, s)
    ensures r == Lower(s)
  {
  }

  /** Lowering twice is lowering once. */
  lemma LowerIdempotent(s: string)
    ensures Lower(Lower(s)) == Lower(s)
  {
  }

  /** Strings that differ only in the case of their letters have the same
      lower-case form. */
  lemma LowerIgnoresCase(s: string, t: string)
    requires SameIgnoringCase(s, t)
    ensures Lower(s) == Lower(t)
  {
  }
}
