/** Character-level helpers of the engine: the C locale's `isspace` and
    `tolower`, the in-place lowercasing of a submitted line, and the vowel
    hint that the Reveal skill shows. */
module Text {

  /** `isspace` in the C locale: space, tab, newline, vertical tab, form feed, carriage return. */
  predicate IsSpace(c: char) {
    c == ' ' || c == '\t' || c == '\n' || c == '\U{000B}' || c == '\U{000C}' || c == '\r'
  }

  /** The two characters `find_first_not_of(" \t")` looks past. */
  predicate IsBlank(c: char) {
    c == ' ' || c == '\t'
  }

  predicate IsUpper(c: char) { 'A' <= c <= 'Z' }

  predicate IsLowerLetter(c: char) { 'a' <= c <= 'z' }

  /** `tolower` in the C locale: only 'A'..'Z' change, each to its lowercase partner. */
  function Lower(c: char): (r: char)
    ensures IsUpper(c) ==> IsLowerLetter(r) && r as int - c as int == 'a' as int - 'A' as int
    ensures !IsUpper(c) ==> r == c
    ensures !IsUpper(r)
  {
    if IsUpper(c) then (c as int - 'A' as int + 'a' as int) as char else c
  }

  /** A string after `for (auto &ch : s) ch = tolower(ch)`. */
  function Lowered(s: string): (r: string)
    ensures |r| == |s|
    ensures forall i :: 0 <= i < |r| ==> !IsUpper(r[i]) && (IsUpper(s[i]) || r[i] == s[i])
  {
    seq(|s|, i requires 0 <= i < |s| => Lower(s[i]))
  }

  /** The loop that lowercases a submitted line in place, one character at a time. */
  method Lowercase(s: string) returns (t: string)
    ensures t == Lowered(s)
    ensures |t| == |s|
    ensures forall i :: 0 <= i < |t| ==> !IsUpper(t[i]) && (IsUpper(s[i]) || t[i] == s[i])
  {
    t := s;
    var i := 0;
    while i < |t|
      invariant 0 <= i <= |t| == |s|
      invariant forall k :: 0 <= k < i ==> t[k] == Lower(s[k])
      invariant forall k :: i <= k < |t| ==> t[k] == s[k]
    {
      t := t[i := Lower(t[i])];
      i := i + 1;
    }
  }

  predicate IsVowel(c: char) {
    c == 'a' || c == 'e' || c == 'i' || c == 'o' || c == 'u'
  }

  /** What the hint shows for one character of the answer. */
  function Mask(c: char): (r: char)
    ensures r == c || r == '_'
    ensures r == c <==> IsVowel(Lower(c)) || c == '_'
  {
    if IsVowel(Lower(c)) then c else '_'
  }

  /** The hint of a whole word. */
  function Masked(w: string): (r: string)
    ensures |r| == |w|
    ensures forall i :: 0 <= i < |r| ==>
              (r[i] == w[i] || r[i] == '_') && (r[i] == w[i] <==> IsVowel(Lower(w[i])) || w[i] == '_')
  {
    seq(|w|, i requires 0 <= i < |w| => Mask(w[i]))
  }

  /** `vowelHint`: builds the hint by pushing one character per character of the word. */
  method VowelHint(word: string) returns (out: string)
    ensures out == Masked(word)
    ensures |out| == |word|
    ensures forall i :: 0 <= i < |word| ==>
              (IsVowel(Lower(word[i])) ==> out[i] == word[i]) &&
              (!IsVowel(Lower(word[i])) ==> out[i] == '_')
  {
    out := "";
    for i := 0 to |word|
      invariant |out| == i
      invariant forall k :: 0 <= k < i ==> out[k] == Mask(word[k])
    {
      var lc := Lower(word[i]);
      if lc == 'a' || lc == 'e' || lc == 'i' || lc == 'o' || lc == 'u' {
        out := out + [word[i]];
      } else {
        out := out + ['_'];
      }
    }
  }

  /** A hint never changes when masked again: every character it shows is a vowel or '_'. */
  lemma {:induction false} MaskedIdempotent(w: string)
    ensures Masked(Masked(w)) == Masked(w)
  {
    var m := Masked(w);
    forall i | 0 <= i < |m|
      ensures Mask(m[i]) == m[i]
    {
      assert m[i] == Mask(w[i]);
    }
  }
}
