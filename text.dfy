/** `String.prototype.trim`, which the food name passes through before it is checked and stored. */
module Text {

  /** The characters trim removes: ECMAScript WhiteSpace and LineTerminator. */
  const Whitespace: set<char> := {
    '\t', '\n', '\U{000B}', '\U{000C}', '\r', ' ', '\U{00A0}', '\U{1680}',
    '\U{2000}', '\U{2001}', '\U{2002}', '\U{2003}', '\U{2004}', '\U{2005}',
    '\U{2006}', '\U{2007}', '\U{2008}', '\U{2009}', '\U{200A}',
    '\U{2028}', '\U{2029}', '\U{202F}', '\U{205F}', '\U{3000}', '\U{FEFF}'
  }

  predicate AllWhitespace(s: string) {
    forall i :: 0 <= i < |s| ==> s[i] in Whitespace
  }

  /** The number of whitespace characters `s` starts with. */
  function Leading(s: string): (k: nat)
    ensures k <= |s|
    ensures forall i :: 0 <= i < k ==> s[i] in Whitespace
    ensures k < |s| ==> s[k] !in Whitespace
  {
    if s != [] && s[0] in Whitespace then 1 + Leading(s[1..]) else 0
  }

  /** The number of whitespace characters `s` ends with. */
  function Trailing(s: string): (k: nat)
    ensures k <= |s|
    ensures forall i :: |s| - k <= i < |s| ==> s[i] in Whitespace
    ensures k < |s| ==> s[|s| - k - 1] !in Whitespace
  {
    if s != [] && s[|s| - 1] in Whitespace then 1 + Trailing(s[..|s| - 1]) else 0
  }

  /**
   * trim: `s` without its leading and trailing whitespace. Nothing is left
   * exactly when `s` is all whitespace; otherwise what is left is a slice of `s`
   * that neither starts nor ends with whitespace.
   */
  function Trim(s: string): (r: string)
    ensures r == [] <==> AllWhitespace(s)
    ensures r != [] ==> Leading(s) + |r| + Trailing(s) == |s| && r == s[Leading(s)..Leading(s) + |r|]
    ensures r != [] ==> r[0] !in Whitespace && r[|r| - 1] !in Whitespace
  {
    var lead := Leading(s);
    if lead == |s| then [] else s[lead..|s| - Trailing(s)]
  }

  /** Trimming twice is trimming once. */
  lemma TrimIdempotent(s: string)
    ensures Trim(Trim(s)) == Trim(s)
  {
    var r := Trim(s);
    if r != [] {
      assert Leading(r) == 0 && Trailing(r) == 0;
    }
  }
}
