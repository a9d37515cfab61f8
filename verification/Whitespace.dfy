/** The characters Go's `strings.TrimSpace` removes. */
module Whitespace {

  predicate IsSpace(c: char) {
    '\t' <= c <= '\r' || c == ' ' || c == '\U{85}' || c == '\U{A0}' || c == '\U{1680}' || '\U{2000}' <= c <= '\U{200A}'
    || c == '\U{2028}' || c == '\U{2029}' || c == '\U{202F}' || c == '\U{205F}' || c == '\U{3000}'
  }

  /** Some character of the text is none of those that both backends trim, each
      written out. */
  ghost predicate HasText(s: string) {
    exists c :: c in s
      && c !in {'\U{9}', '\U{A}', '\U{B}', '\U{C}', '\U{D}', '\U{20}', '\U{85}', '\U{A0}', '\U{1680}', '\U{2000}',
                '\U{2001}', '\U{2002}', '\U{2003}', '\U{2004}', '\U{2005}', '\U{2006}', '\U{2007}', '\U{2008}',
                '\U{2009}', '\U{200A}', '\U{2028}', '\U{2029}', '\U{202F}', '\U{205F}', '\U{3000}'}
  }

  lemma HasTextIff(s: string)
    ensures HasText(s) <==> exists c :: c in s && !IsSpace(c)
  {
    if c :| c in s && !IsSpace(c) { assert HasText(s); }
  }
}
