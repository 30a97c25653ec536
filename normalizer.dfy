/**
 * `normalizar_texto` (src/tools.py): accent stripping, whitespace removal and
 * lowering, the key used by the structural and dictionary lookups.
 *
 * Accent stripping is the `unidecode` package, which is not part of this
 * model: it is any function from strings to strings whose output is ASCII and
 * which leaves ASCII text unchanged. Every lookup takes it as a parameter, so
 * what is proved holds for each such function.
 */
module Normalizer {
  import opened Text

  ghost predicate IsTransliteration(f: string -> string) {
    forall s :: IsAscii(f(s)) && (IsAscii(s) ==> f(s) == s)
  }

  /** Replaces each non-ASCII character by '?': one function with the required shape. */
  function AsciiOrQuestionMark(s: string): (r: string)
    ensures IsAscii(r) && (IsAscii(s) ==> r == s)
  {
    seq(|s|, i requires 0 <= i < |s| => if IsAsciiChar(s[i]) then s[i] else '?')
  }

  /** The accent-stripping step: ASCII output, identity on ASCII input. */
  type Transliteration = f: string -> string | IsTransliteration(f) witness AsciiOrQuestionMark

  /** `normalizar_texto(texto)`: `unidecode`, then every `\s` removed, then `lower()`. */
  function Normalize(unidecode: Transliteration, texto: string): (key: string)
    ensures IsAscii(key) && NoSpace(key) && NoUpperAscii(key)
  {
    var ascii := unidecode(texto);
    RemoveSpacesAscii(ascii);
    var compact := RemoveSpaces(ascii);
    LowerProperties(compact);
    Lower(compact)
  }

  /** Normalising a key again changes nothing. */
  lemma NormalizeIdempotent(unidecode: Transliteration, texto: string)
    ensures Normalize(unidecode, Normalize(unidecode, texto)) == Normalize(unidecode, texto)
  {
    var key := Normalize(unidecode, texto);
    assert unidecode(key) == key;
    RemoveSpacesIdentity(key);
    LowerIdentity(key);
  }

  /** ASCII text that differs only in letter case normalises to the same key. */
  lemma NormalizeIgnoresCase(unidecode: Transliteration, texto: string)
    requires IsAscii(texto)
    ensures Normalize(unidecode, Lower(texto)) == Normalize(unidecode, texto)
  {
    LowerProperties(texto);
    assert unidecode(texto) == texto;
    assert unidecode(Lower(texto)) == Lower(texto);
    RemoveSpacesLower(texto);
    LowerProperties(RemoveSpaces(texto));
  }

  /** Whitespace inserted anywhere in ASCII text does not change its key. */
  lemma NormalizeIgnoresSpaces(unidecode: Transliteration, a: string, spaces: string, b: string)
    requires IsAscii(a) && IsAscii(b)
    requires forall i :: 0 <= i < |spaces| ==> IsSpace(spaces[i]) && IsAsciiChar(spaces[i])
    ensures Normalize(unidecode, a + spaces + b) == Normalize(unidecode, a + b)
  {
    var long, short := a + spaces + b, a + b;
    assert IsAscii(long) by {
      assert forall i :: 0 <= i < |long| ==> long[i] == if i < |a| then a[i] else if i < |a| + |spaces| then spaces[i - |a|] else b[i - |a| - |spaces|];
    }
    assert IsAscii(short) by {
      assert forall i :: 0 <= i < |short| ==> short[i] == if i < |a| then a[i] else b[i - |a|];
    }
    assert unidecode(long) == long;
    assert unidecode(short) == short;
    AllSpacesVanish(spaces);
    RemoveSpacesAppend(a + spaces, b);
    RemoveSpacesAppend(a, spaces);
    RemoveSpacesAppend(a, b);
    assert RemoveSpaces(long) == RemoveSpaces(short);
  }

  /** For ASCII text without whitespace the key is just the lowered text. */
  lemma NormalizePlain(unidecode: Transliteration, texto: string)
    requires IsAscii(texto) && NoSpace(texto)
    ensures Normalize(unidecode, texto) == Lower(texto)
  {
    assert unidecode(texto) == texto;
    RemoveSpacesIdentity(texto);
  }

  lemma {:induction false} AllSpacesVanish(s: string)
    requires forall i :: 0 <= i < |s| ==> IsSpace(s[i])
    ensures RemoveSpaces(s) == []
  {
    if s != [] {
      AllSpacesVanish(s[1..]);
    }
  }

  /** A text made only of whitespace (the empty text included) normalises to "". */
  lemma NormalizeBlank(unidecode: Transliteration, texto: string)
    requires IsAscii(texto)
    requires forall i :: 0 <= i < |texto| ==> IsSpace(texto[i])
    ensures Normalize(unidecode, texto) == ""
  {
    assert unidecode(texto) == texto;
    AllSpacesVanish(texto);
  }
}
