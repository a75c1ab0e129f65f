/**
 * The string operations the page relies on: upper- and lower-casing,
 * trimming, the blank test of the insert guard, substring search, and the
 * name normalisation applied on every write (upper-case, then trim).
 *
 * Case mapping covers ASCII and the Latin-1 letters (enough for Portuguese
 * names such as "joão"); whitespace is the ASCII set plus no-break space and
 * the byte-order mark.
 */
module Texto {

  // ---------------------------------------------------------------- case

  /** A letter that upper-casing changes. */
  predicate EhMinuscula(c: char) {
    ('a' <= c <= 'z') || ('\U{E0}' <= c <= '\U{FE}' && c != '\U{F7}')
  }

  /** A letter that lower-casing changes. */
  predicate EhMaiuscula(c: char) {
    ('A' <= c <= 'Z') || ('\U{C0}' <= c <= '\U{DE}' && c != '\U{D7}')
  }

  function MaiusculaChar(c: char): (r: char)
    ensures !EhMinuscula(r)
    ensures EhMinuscula(c) ==> EhMaiuscula(r) && r as int == c as int - 32
    ensures !EhMinuscula(c) ==> r == c
  {
    if EhMinuscula(c) then (c as int - 32) as char else c
  }

  function MinusculaChar(c: char): (r: char)
    ensures !EhMaiuscula(r)
    ensures EhMaiuscula(c) ==> EhMinuscula(r) && r as int == c as int + 32
    ensures !EhMaiuscula(c) ==> r == c
  {
    if EhMaiuscula(c) then (c as int + 32) as char else c
  }

  /** `toUpperCase` */
  function Maiusculas(s: string): (r: string)
    ensures |r| == |s|
    ensures forall i :: 0 <= i < |s| ==> r[i] == MaiusculaChar(s[i])
  {
    seq(|s|, i requires 0 <= i < |s| => MaiusculaChar(s[i]))
  }

  /** `toLowerCase` */
  function Minusculas(s: string): (r: string)
    ensures |r| == |s|
    ensures forall i :: 0 <= i < |s| ==> r[i] == MinusculaChar(s[i])
  {
    seq(|s|, i requires 0 <= i < |s| => MinusculaChar(s[i]))
  }

  /** Lower-casing forgets any earlier upper-casing: the two strings compare equal case-insensitively. */
  lemma MinusculasDeMaiusculas(s: string)
    ensures Minusculas(Maiusculas(s)) == Minusculas(s)
  {
    forall i | 0 <= i < |s|
      ensures Minusculas(Maiusculas(s))[i] == Minusculas(s)[i]
    {
      var c := s[i];
      if EhMinuscula(c) {
        assert EhMaiuscula(MaiusculaChar(c));
        assert MinusculaChar(MaiusculaChar(c)) as int == c as int;
      } else if EhMaiuscula(c) {
        assert MaiusculaChar(c) == c;
      }
    }
  }

  // ---------------------------------------------------------------- trim

  /** The whitespace `trim` removes (ASCII space and controls, no-break space, byte-order mark). */
  predicate EhEspaco(c: char) {
    c == ' ' || c == '\t' || c == '\n' || c == '\r' || c == '\U{B}' || c == '\U{C}'
    || c == '\U{A0}' || c == '\U{FEFF}'
  }

  /** How many whitespace characters `s` starts with. */
  function BrancosInicio(s: string): (k: nat)
    ensures k <= |s|
    ensures forall i :: 0 <= i < k ==> EhEspaco(s[i])
    ensures k < |s| ==> !EhEspaco(s[k])
  {
    if s != [] && EhEspaco(s[0]) then 1 + BrancosInicio(s[1..]) else 0
  }

  /** How many whitespace characters `s` ends with. */
  function BrancosFim(s: string): (k: nat)
    ensures k <= |s|
    ensures forall i :: |s| - k <= i < |s| ==> EhEspaco(s[i])
    ensures k < |s| ==> !EhEspaco(s[|s| - k - 1])
  {
    if s != [] && EhEspaco(s[|s| - 1]) then 1 + BrancosFim(s[..|s| - 1]) else 0
  }

  /** `trim`: drop the leading whitespace, then the trailing whitespace. */
  function Aparar(s: string): (r: string)
    ensures |r| <= |s|
    ensures r == [] || (!EhEspaco(r[0]) && !EhEspaco(r[|r| - 1]))
  {
    var t := s[BrancosInicio(s)..];
    var r := t[..|t| - BrancosFim(t)];
    assert r != [] ==> r[0] == t[0] && r[|r| - 1] == t[|t| - BrancosFim(t) - 1];
    r
  }

  /** `trim` cuts only whitespace, from either end, and what it leaves neither starts
      nor ends with whitespace; it leaves nothing exactly when the string is all whitespace. */
  lemma ApararCorreto(s: string)
    ensures var r := Aparar(s);
      && (r == [] || (!EhEspaco(r[0]) && !EhEspaco(r[|r| - 1])))
      && Corte(s, r, BrancosInicio(s))
      && (r == [] <==> forall k :: 0 <= k < |s| ==> EhEspaco(s[k]))
  {
    var a := BrancosInicio(s);
    var t := s[a..];
    var b := BrancosFim(t);
    var r := Aparar(s);
    assert r == s[a..a + |r|];
    forall k | a + |r| <= k < |s| ensures EhEspaco(s[k]) {
      assert s[k] == t[k - a];
    }
    if r != [] {
      assert r[0] == s[a];
      assert r[|r| - 1] == t[|t| - b - 1];
    }
  }

  /** `r` is `s` with `i` characters of whitespace cut from the front and only whitespace cut from the back. */
  ghost predicate Corte(s: string, r: string, i: int) {
    && 0 <= i && i + |r| <= |s|
    && r == s[i..i + |r|]
    && (forall k :: 0 <= k < i ==> EhEspaco(s[k]))
    && (forall k :: i + |r| <= k < |s| ==> EhEspaco(s[k]))
  }

  /** `!s.trim()`: the string is empty or whitespace only. */
  predicate EmBranco(s: string)
    ensures EmBranco(s) <==> forall k :: 0 <= k < |s| ==> EhEspaco(s[k])
  {
    ApararCorreto(s);
    Aparar(s) == []
  }

  /** A trimmed string is left alone by a second trim. */
  lemma ApararIdempotente(s: string)
    requires s == [] || (!EhEspaco(s[0]) && !EhEspaco(s[|s| - 1]))
    ensures Aparar(s) == s
  {
    if s != [] {
      assert BrancosInicio(s) == 0;
      assert s[0..] == s;
      assert BrancosFim(s) == 0;
    }
  }

  // ---------------------------------------------------------------- includes

  /** `sub` occurs in `s` starting at position `i`. */
  predicate OcorreEm(s: string, sub: string, i: int) {
    0 <= i && i + |sub| <= |s| && s[i..i + |sub|] == sub
  }

  /** `s.includes(sub)` */
  function Contem(s: string, sub: string): (r: bool)
    ensures r <==> exists i :: OcorreEm(s, sub, i)
  {
    if sub <= s then
      assert OcorreEm(s, sub, 0);
      true
    else if s == [] then
      false
    else
      var r := Contem(s[1..], sub);
      assert forall i :: OcorreEm(s[1..], sub, i) ==> OcorreEm(s, sub, i + 1);
      assert forall i :: OcorreEm(s, sub, i) && i > 0 ==> OcorreEm(s[1..], sub, i - 1);
      r
  }

  /** The empty string occurs in every string. */
  lemma ContemVazio(s: string)
    ensures Contem(s, "")
  {
    assert OcorreEm(s, "", 0);
  }

  // ---------------------------------------------------------------- normalisation

  /** What a name looks like after normalisation: nothing left to upper-case,
      no whitespace at either end. */
  predicate Normalizado(s: string) {
    && (forall i :: 0 <= i < |s| ==> !EhMinuscula(s[i]))
    && (s == [] || (!EhEspaco(s[0]) && !EhEspaco(s[|s| - 1])))
  }

  /** `s.toUpperCase().trim()` */
  function Normalizar(s: string): (r: string)
    ensures Normalizado(r)
  {
    var u := Maiusculas(s);
    var r := Aparar(u);
    ApararCorreto(u);
    assert forall k :: 0 <= k < |r| ==> r[k] == u[BrancosInicio(u) + k];
    r
  }

  /** Upper-casing maps whitespace to whitespace and nothing else to whitespace. */
  lemma EspacoPreservado(c: char)
    ensures EhEspaco(MaiusculaChar(c)) <==> EhEspaco(c)
  {
  }

  /** The normalised name is the upper-cased input with whitespace cut from its two
      ends and nothing else; it is upper-case and trimmed; it is empty exactly when
      the input was blank; and normalising it again changes nothing. */
  lemma NormalizarCorreto(s: string)
    ensures Corte(Maiusculas(s), Normalizar(s), BrancosInicio(Maiusculas(s)))
    ensures Normalizado(Normalizar(s))
    ensures Normalizar(s) == [] <==> EmBranco(s)
    ensures Normalizar(Normalizar(s)) == Normalizar(s)
  {
    NormalizarEmBranco(s);
    var r := Normalizar(s);
    ApararCorreto(Maiusculas(s));
    assert Maiusculas(r) == r;
    ApararIdempotente(r);
  }

  lemma NormalizarEmBranco(s: string)
    ensures Normalizar(s) == [] <==> EmBranco(s)
  {
    var u := Maiusculas(s);
    ApararCorreto(u);
    ApararCorreto(s);
    forall k | 0 <= k < |s| ensures EhEspaco(u[k]) <==> EhEspaco(s[k]) {
      EspacoPreservado(s[k]);
    }
  }

  /** A name already in normal form is left as it is. */
  lemma NormalizarNormalizado(s: string)
    requires Normalizado(s)
    ensures Normalizar(s) == s
  {
    assert Maiusculas(s) == s;
    ApararIdempotente(s);
  }

  /** "  joão silva " is stored as "JOÃO SILVA". */
  lemma ExemploNormalizar()
    ensures Normalizar("  jo\U{E3}o silva ") == "JO\U{C3}O SILVA"
  {
    ExemploMaiusculas();
    ExemploAparar();
  }

  lemma ExemploMaiusculas()
    ensures Maiusculas("  jo\U{E3}o silva ") == "  JO\U{C3}O SILVA "
  {
    var s := "  jo\U{E3}o silva ";
    var u := "  JO\U{C3}O SILVA ";
    forall i | 0 <= i < |s| ensures MaiusculaChar(s[i]) == u[i] {
      if i < 7 {
        assert s[i] == [' ', ' ', 'j', 'o', '\U{E3}', 'o', ' '][i];
      } else {
        assert s[i] == ['s', 'i', 'l', 'v', 'a', ' '][i - 7];
      }
    }
  }

  lemma ExemploAparar()
    ensures Aparar("  JO\U{C3}O SILVA ") == "JO\U{C3}O SILVA"
  {
    var u := "  JO\U{C3}O SILVA ";
    BrancosInicioUnico(u, 2);
    var t := u[2..];
    BrancosFimUnico(t, 1);
    assert t[..10] == "JO\U{C3}O SILVA";
  }

  /** The leading whitespace is exactly the first `k` characters when those are
      whitespace and the next one is not. */
  lemma {:induction false} BrancosInicioUnico(s: string, k: nat)
    requires k <= |s| && (forall i :: 0 <= i < k ==> EhEspaco(s[i]))
    requires k < |s| ==> !EhEspaco(s[k])
    ensures BrancosInicio(s) == k
  {
    if k > 0 {
      BrancosInicioUnico(s[1..], k - 1);
    }
  }

  /** The same for the trailing whitespace. */
  lemma {:induction false} BrancosFimUnico(s: string, k: nat)
    requires k <= |s| && (forall i :: |s| - k <= i < |s| ==> EhEspaco(s[i]))
    requires k < |s| ==> !EhEspaco(s[|s| - k - 1])
    ensures BrancosFim(s) == k
  {
    if k > 0 {
      BrancosFimUnico(s[..|s| - 1], k - 1);
    }
  }
}
