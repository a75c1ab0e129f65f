/**
 * Amounts and their text form. An amount is a whole number of centavos, so
 * R$ 150,50 is 15050. Its text form is the decimal numeral of the amount in
 * reais that `Number.prototype.toString` writes: at most two decimal places,
 * no trailing zero after the point.
 *
 * `Mostrar` plays the part of `toString` and `Interpretar` that of
 * `parseFloat`, which reads the longest numeral at the start of the text and
 * ignores the rest. `None` stands for NaN: the text does not start with a
 * numeral. It also stands for a numeral with more than two decimal places
 * once its trailing zeros are dropped ("100.555"), which no whole number of
 * centavos represents.
 */
module Numeros {
  import opened Wrappers
  import opened Texto

  predicate EhDigito(c: char) {
    '0' <= c <= '9'
  }

  predicate SoDigitos(s: string) {
    forall i :: 0 <= i < |s| ==> EhDigito(s[i])
  }

  function Digito(d: nat): (c: char)
    requires d < 10
    ensures EhDigito(c)
  {
    ('0' as int + d) as char
  }

  function ValorDigito(c: char): (d: nat)
    requires EhDigito(c)
    ensures d < 10
  {
    c as int - '0' as int
  }

  /** The decimal numeral of a natural number, without leading zeros. */
  function MostrarNat(n: nat): (s: string)
    ensures s != [] && SoDigitos(s)
  {
    if n < 10 then [Digito(n)] else MostrarNat(n / 10) + [Digito(n % 10)]
  }

  /** The value of a string of digits, most significant first. */
  function ValorDigitos(s: string): nat
    requires SoDigitos(s)
  {
    if s == [] then 0 else ValorDigitos(s[..|s| - 1]) * 10 + ValorDigito(s[|s| - 1])
  }

  lemma {:induction false} ValorDeMostrarNat(n: nat)
    ensures ValorDigitos(MostrarNat(n)) == n
  {
    if n >= 10 {
      var s := MostrarNat(n);
      assert s[..|s| - 1] == MostrarNat(n / 10);
      ValorDeMostrarNat(n / 10);
    }
  }

  // ---------------------------------------------------------------- toString

  /** The decimals `toString` writes for `c` centavos: none for a whole amount, one
      digit when the second would be zero, two otherwise. */
  function Decimais(c: nat): string
    requires c < 100
  {
    if c == 0 then ""
    else if c % 10 == 0 then ['.', Digito(c / 10)]
    else ['.', Digito(c / 10), Digito(c % 10)]
  }

  /** `toString` of the amount `v` centavos, written in reais. */
  function Mostrar(v: int): (s: string)
    ensures s != [] && (s[0] == '-' <==> v < 0)
  {
    var a := if v < 0 then -v else v;
    var m := MostrarNat(a / 100);
    assert EhDigito(m[0]);
    (if v < 0 then "-" else "") + m + Decimais(a % 100)
  }

  // ---------------------------------------------------------------- parseFloat

  /** The numeral `parseFloat` reads at the start of a text: a sign, the digits
      before the decimal point and the digits after it. */
  datatype Numeral = Numeral(negativo: bool, inteiro: string, fracao: string)

  /** Where the scan of a numeral is: in the leading whitespace, in the digits
      before the point, or in the digits after it. */
  datatype Fase = Espacos | AntesDoPonto | DepoisDoPonto

  /** The phases come in this order, so a scan that moves on without reading a
      character still ends. */
  function Ordem(fase: Fase): nat {
    match fase
    case Espacos => 2
    case AntesDoPonto => 1
    case DepoisDoPonto => 0
  }

  /** The numeral read so far, if it holds a digit. */
  function Lido(neg: bool, inteiro: string, fracao: string): Option<Numeral> {
    if inteiro == [] && fracao == [] then None else Some(Numeral(neg, inteiro, fracao))
  }

  /** `parseFloat`'s scan, left to right: skip whitespace, take one sign, then
      digits, then a point and more digits; stop at the first character that cannot
      continue the numeral and keep what was read, provided it holds a digit. */
  function Varrer(s: string, fase: Fase, neg: bool, inteiro: string, fracao: string): (r: Option<Numeral>)
    requires SoDigitos(inteiro) && SoDigitos(fracao)
    ensures r.Some? ==> SoDigitos(r.value.inteiro) && SoDigitos(r.value.fracao)
    ensures r.Some? ==> r.value.inteiro != [] || r.value.fracao != []
    decreases |s|, Ordem(fase)
  {
    if s == [] then Lido(neg, inteiro, fracao)
    else
      var c := s[0];
      match fase
      case Espacos =>
        if EhEspaco(c) then Varrer(s[1..], Espacos, neg, inteiro, fracao)
        else if c == '-' || c == '+' then Varrer(s[1..], AntesDoPonto, c == '-', inteiro, fracao)
        else Varrer(s, AntesDoPonto, neg, inteiro, fracao)
      case AntesDoPonto =>
        if EhDigito(c) then Varrer(s[1..], AntesDoPonto, neg, inteiro + [c], fracao)
        else if c == '.' then Varrer(s[1..], DepoisDoPonto, neg, inteiro, fracao)
        else Lido(neg, inteiro, fracao)
      case DepoisDoPonto =>
        if EhDigito(c) then Varrer(s[1..], DepoisDoPonto, neg, inteiro, fracao + [c])
        else Lido(neg, inteiro, fracao)
  }

  /** The numeral at the start of `s`, if any. */
  function LerNumeral(s: string): (r: Option<Numeral>)
    ensures r.Some? ==> SoDigitos(r.value.inteiro) && SoDigitos(r.value.fracao)
  {
    Varrer(s, Espacos, false, [], [])
  }

  /** A scan only yields a numeral when a digit was read before or is still ahead. */
  lemma {:induction false} VarrerTemDigito(s: string, fase: Fase, neg: bool, inteiro: string, fracao: string)
    requires SoDigitos(inteiro) && SoDigitos(fracao)
    requires Varrer(s, fase, neg, inteiro, fracao).Some?
    ensures inteiro != [] || fracao != [] || exists i :: 0 <= i < |s| && EhDigito(s[i])
    decreases |s|, Ordem(fase)
  {
    if s != [] && inteiro == [] && fracao == [] && !EhDigito(s[0]) {
      var c := s[0];
      match fase
      case Espacos =>
        if EhEspaco(c) || c == '-' || c == '+' {
          VarrerTemDigito(s[1..], if EhEspaco(c) then Espacos else AntesDoPonto, if EhEspaco(c) then neg else c == '-', inteiro, fracao);
          FimTemDigito(s);
        } else {
          VarrerTemDigito(s, AntesDoPonto, neg, inteiro, fracao);
        }
      case AntesDoPonto =>
        if c == '.' {
          VarrerTemDigito(s[1..], DepoisDoPonto, neg, inteiro, fracao);
          FimTemDigito(s);
        }
      case DepoisDoPonto =>
    }
  }

  lemma FimTemDigito(s: string)
    requires s != []
    ensures (exists i :: 0 <= i < |s| - 1 && EhDigito(s[1..][i])) ==> exists i :: 0 <= i < |s| && EhDigito(s[i])
  {
    if exists i :: 0 <= i < |s| - 1 && EhDigito(s[1..][i]) {
      var i :| 0 <= i < |s| - 1 && EhDigito(s[1..][i]);
      assert EhDigito(s[i + 1]);
    }
  }

  /** The centavos written by at most two decimal digits. */
  function Centavos(f: string): (c: nat)
    requires SoDigitos(f) && |f| <= 2
    ensures c < 100
  {
    if f == [] then 0
    else if |f| == 1 then ValorDigito(f[0]) * 10
    else ValorDigito(f[0]) * 10 + ValorDigito(f[1])
  }

  /** The decimals without their trailing zeros, which add nothing to the value:
      "500" is "5". */
  function SemZerosFinais(f: string): (r: string)
    ensures |r| <= |f| && r == f[..|r|]
    ensures forall i :: |r| <= i < |f| ==> f[i] == '0'
    ensures r == [] || r[|r| - 1] != '0'
  {
    if f != [] && f[|f| - 1] == '0' then SemZerosFinais(f[..|f| - 1]) else f
  }

  /** The amount in centavos a numeral stands for; `None` when it has more than two
      decimal places besides trailing zeros, which no whole number of centavos
      represents. */
  function ValorNumeral(num: Numeral): Option<int>
    requires SoDigitos(num.inteiro) && SoDigitos(num.fracao)
  {
    var f := SemZerosFinais(num.fracao);
    assert forall i :: 0 <= i < |f| ==> f[i] == num.fracao[i];
    if |f| > 2 then None
    else
      var m := ValorDigitos(num.inteiro) * 100 + Centavos(f);
      Some(if num.negativo then -m else m)
  }

  /** A trailing zero after the point does not change the amount: "100.50" and
      "100.500" read as "100.5" does. */
  lemma ZeroFinalNaoMuda(num: Numeral)
    requires SoDigitos(num.inteiro) && SoDigitos(num.fracao)
    ensures ValorNumeral(num.(fracao := num.fracao + "0")) == ValorNumeral(num)
  {
    var g := num.fracao + "0";
    assert g[..|g| - 1] == num.fracao;
  }

  /** `parseFloat(s)`, in centavos; `None` is NaN. */
  function Interpretar(s: string): (r: Option<int>)
    ensures r.Some? ==> exists i :: 0 <= i < |s| && EhDigito(s[i])
  {
    var num := LerNumeral(s);
    if num.None? then None
    else
      VarrerTemDigito(s, Espacos, false, [], []);
      ValorNumeral(num.value)
  }

  /** Digits are taken one by one into the whole part, up to the first character that
      is not a digit. */
  lemma {:induction false} VarrerInteiro(m: string, resto: string, neg: bool, inteiro: string)
    requires SoDigitos(m) && SoDigitos(inteiro)
    ensures Varrer(m + resto, AntesDoPonto, neg, inteiro, []) == Varrer(resto, AntesDoPonto, neg, inteiro + m, [])
    decreases |m|
  {
    if m == [] {
      assert m + resto == resto && inteiro + m == inteiro;
    } else {
      assert (m + resto)[0] == m[0] && (m + resto)[1..] == m[1..] + resto;
      assert inteiro + [m[0]] + m[1..] == inteiro + m;
      VarrerInteiro(m[1..], resto, neg, inteiro + [m[0]]);
    }
  }

  /** The same for the digits after the point, up to the end of the text. */
  lemma {:induction false} VarrerDecimais(f: string, neg: bool, inteiro: string, fracao: string)
    requires SoDigitos(f) && SoDigitos(inteiro) && SoDigitos(fracao)
    ensures Varrer(f, DepoisDoPonto, neg, inteiro, fracao) == Lido(neg, inteiro, fracao + f)
    decreases |f|
  {
    if f == [] {
      assert fracao + f == fracao;
    } else {
      assert fracao + [f[0]] + f[1..] == fracao + f;
      VarrerDecimais(f[1..], neg, inteiro, fracao + [f[0]]);
    }
  }

  /** A sign, digits and, when there are decimals, a point followed by them, read
      back as those parts. */
  lemma LerNumeralPartes(s: string, neg: bool, m: string, f: string)
    requires m != [] && SoDigitos(m) && SoDigitos(f)
    requires s == (if neg then "-" else "") + m + (if f == [] then "" else "." + f)
    ensures LerNumeral(s) == Some(Numeral(neg, m, f))
  {
    var p := if f == [] then "" else "." + f;
    var u := m + p;
    assert EhDigito(m[0]);
    if neg {
      assert s == "-" + u && s[0] == '-' && s[1..] == u;
      assert LerNumeral(s) == Varrer(u, AntesDoPonto, true, [], []);
    } else {
      assert s == u && s[0] == m[0];
      assert LerNumeral(s) == Varrer(u, AntesDoPonto, false, [], []);
    }
    VarrerInteiro(m, p, neg, []);
    assert [] + m == m;
    if f == [] {
      assert Varrer(p, AntesDoPonto, neg, m, []) == Lido(neg, m, []);
    } else {
      assert p[0] == '.' && p[1..] == f;
      VarrerDecimais(f, neg, m, []);
      assert [] + f == f;
    }
  }

  /** Any run of trailing zeros after the point leaves the amount as it was. */
  lemma {:induction false} ZerosFinaisNaoMudam(num: Numeral, z: string)
    requires SoDigitos(num.inteiro) && SoDigitos(num.fracao)
    requires forall i :: 0 <= i < |z| ==> z[i] == '0'
    ensures ValorNumeral(num.(fracao := num.fracao + z)) == ValorNumeral(num)
    decreases |z|
  {
    if z != [] {
      var y := z[..|z| - 1];
      assert num.fracao + z == (num.fracao + y) + "0";
      ZerosFinaisNaoMudam(num, y);
      ZeroFinalNaoMuda(num.(fracao := num.fracao + y));
    } else {
      assert num.fracao + z == num.fracao;
    }
  }

  /** The decimals `toString` writes stand for the centavos they came from. */
  lemma CentavosDecimais(c: nat)
    requires c < 100
    ensures var d := Decimais(c);
      && (d == [] || (d[0] == '.' && |d| <= 3 && SoDigitos(d[1..]) && d[|d| - 1] != '0'))
      && Centavos(if d == [] then [] else d[1..]) == c
  {
  }

  /** Reading back the text of an amount gives the amount: what `toString` writes
      into the edit draft, `parseFloat` reads back unchanged. */
  lemma InterpretarMostrar(v: int)
    ensures Interpretar(Mostrar(v)) == Some(v)
  {
    var a := if v < 0 then -v else v;
    var m := MostrarNat(a / 100);
    var d := Decimais(a % 100);
    CentavosDecimais(a % 100);
    var f := if d == [] then [] else d[1..];
    assert d == (if f == [] then "" else "." + f);
    assert Mostrar(v) == (if v < 0 then "-" else "") + m + d;
    LerNumeralPartes(Mostrar(v), v < 0, m, f);
    ValorDeMostrarNat(a / 100);
    assert |f| <= 2 && Centavos(f) == a % 100;
    assert SemZerosFinais(f) == f;
    assert (a / 100) * 100 + a % 100 == a;
    assert ValorNumeral(Numeral(v < 0, m, f)) == Some(v);
  }

  /** A numeral of digits alone reads as that many reais. */
  lemma InterpretarInteiro(s: string)
    requires s != [] && SoDigitos(s)
    ensures Interpretar(s) == Some(ValorDigitos(s) * 100)
  {
    LerNumeralPartes(s, false, s, "");
  }

  /** Empty text and a lone sign or point are NaN: there is no digit to read. */
  lemma InterpretarSemDigito()
    ensures Interpretar("") == None
    ensures Interpretar("-") == None
    ensures Interpretar(".") == None
    ensures Interpretar("-.") == None
  {
    assert !EhDigito("-."[0]) && !EhDigito("-."[1]);
  }

  /** Text that starts with a letter is NaN, whatever follows. */
  lemma InterpretarLetraInicial()
    ensures Interpretar("a1") == None
  {
    var s := "a1";
    assert !EhEspaco(s[0]) && !EhDigito(s[0]);
    assert LerNumeral(s) == Varrer(s, AntesDoPonto, false, [], []);
  }

  /** `parseFloat` reads the numeral at the start and ignores what follows it:
      "1a" is one real. */
  lemma InterpretarPrefixo()
    ensures Interpretar("1a") == Some(100)
  {
    var s := "1a";
    assert LerNumeral(s) == Varrer(s, AntesDoPonto, false, [], []);
    assert s[1..] == "a" && [] + ['1'] == "1";
    assert Varrer("a", AntesDoPonto, false, "1", []) == Some(Numeral(false, "1", []));
    assert ValorDigitos("1") == 1 by { assert "1"[..0] == []; }
  }

  /** Decimals are read as centavos: "100.5" is R$ 100,50. */
  lemma InterpretarCentavos()
    ensures Interpretar("100.5") == Some(10050)
  {
    LerNumeralPartes("100.5", false, "100", "5");
    assert ValorDigitos("100") == 100 by {
      assert "100"[..2] == "10" && "10"[..1] == "1" && "1"[..0] == [];
    }
    assert Centavos("5") == 50;
    assert ValorNumeral(Numeral(false, "100", "5")) == Some(10050);
  }

  /** Trailing zeros after the point are read as `parseFloat` reads them: "100.500"
      is R$ 100,50. */
  lemma InterpretarZerosFinais()
    ensures Interpretar("100.500") == Some(10050)
  {
    LerNumeralPartes("100.500", false, "100", "500");
    LerNumeralPartes("100.5", false, "100", "5");
    InterpretarCentavos();
    ZerosFinaisNaoMudam(Numeral(false, "100", "5"), "00");
    assert "5" + "00" == "500";
  }

  /** Decimals that are all zeros leave a whole number of reais: "1.000" is one real. */
  lemma InterpretarSoZeros()
    ensures Interpretar("1.000") == Some(100)
  {
    LerNumeralPartes("1.000", false, "1", "000");
    ValorUmReal("000");
  }

  lemma ValorUmReal(z: string)
    requires forall i :: 0 <= i < |z| ==> z[i] == '0'
    ensures ValorNumeral(Numeral(false, "1", z)) == Some(100)
  {
    var n := Numeral(false, "1", "");
    assert ValorNumeral(n) == Some(100) by { assert "1"[..0] == []; }
    ZerosFinaisNaoMudam(n, z);
    assert n.fracao + z == z;
  }
}
