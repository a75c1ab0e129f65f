/**
 * Allowance records and the pure projections the page derives from the list
 * of records: the filtered list, the total spent and the remaining balance.
 */
module Diarias {
  import opened Wrappers
  import opened Texto
  import opened Numeros

  /** One allowance record as the store returns it; `valor` is in centavos. */
  datatype Diaria = Diaria(id: string, militarNome: string, valor: int, createdAt: string)

  /** The three filter fields, as the user typed them. */
  datatype Filtro = Filtro(militar: string, valorMin: string, valorMax: string)

  /** The fixed monthly allotment, R$ 60.000,00, in centavos. */
  const SALDO_MENSAL: int := 6000000

  // ---------------------------------------------------------------- filter

  /** The record's name contains the name filter, ignoring case. */
  predicate CasaNome(d: Diaria, f: Filtro)
    ensures CasaNome(d, f) <==> exists i :: OcorreEm(Minusculas(d.militarNome), Minusculas(f.militar), i)
    ensures f.militar == "" ==> CasaNome(d, f)
  {
    ContemVazio(Minusculas(d.militarNome));
    Contem(Minusculas(d.militarNome), Minusculas(f.militar))
  }

  /** An empty minimum field imposes nothing; otherwise the value must be at least the
      number typed, and text that is not a number (NaN) lets nothing through. */
  predicate CasaMinimo(d: Diaria, f: Filtro)
    ensures f.valorMin == "" ==> CasaMinimo(d, f)
    ensures f.valorMin != "" && Interpretar(f.valorMin).None? ==> !CasaMinimo(d, f)
    ensures f.valorMin != "" && Interpretar(f.valorMin).Some? ==> (CasaMinimo(d, f) <==> d.valor >= Interpretar(f.valorMin).value)
  {
    f.valorMin == "" || (Interpretar(f.valorMin).Some? && d.valor >= Interpretar(f.valorMin).value)
  }

  /** The same for the maximum field. */
  predicate CasaMaximo(d: Diaria, f: Filtro)
    ensures f.valorMax == "" ==> CasaMaximo(d, f)
    ensures f.valorMax != "" && Interpretar(f.valorMax).None? ==> !CasaMaximo(d, f)
    ensures f.valorMax != "" && Interpretar(f.valorMax).Some? ==> (CasaMaximo(d, f) <==> d.valor <= Interpretar(f.valorMax).value)
  {
    f.valorMax == "" || (Interpretar(f.valorMax).Some? && d.valor <= Interpretar(f.valorMax).value)
  }

  /** The filter keeps a record when all three checks pass; with every field empty
      it keeps any record. */
  predicate Mantem(d: Diaria, f: Filtro)
    ensures f == Filtro("", "", "") ==> Mantem(d, f)
  {
    CasaNome(d, f) && CasaMinimo(d, f) && CasaMaximo(d, f)
  }

  /** `a` is `b` with some elements left out, the rest in their original order. */
  predicate Subsequencia<T(==)>(a: seq<T>, b: seq<T>)
    decreases |b|
  {
    if a == [] then true
    else if b == [] then false
    else if a[0] == b[0] then Subsequencia(a[1..], b[1..])
    else Subsequencia(a, b[1..])
  }

  /** `diariasFiltradas`: the records that pass the filter, in list order, each as
      often as it occurs in the list. */
  function Filtrar(ds: seq<Diaria>, f: Filtro): (r: seq<Diaria>)
    ensures Subsequencia(r, ds)
    ensures forall d :: d in r <==> d in ds && Mantem(d, f)
    ensures forall d :: multiset(r)[d] == if Mantem(d, f) then multiset(ds)[d] else 0
  {
    if ds == [] then []
    else
      var resto := Filtrar(ds[1..], f);
      assert ds == [ds[0]] + ds[1..];
      if Mantem(ds[0], f) then [ds[0]] + resto else resto
  }

  /** With all three filter fields empty, every record is kept. */
  lemma {:induction false} FiltroVazioMantemTudo(ds: seq<Diaria>)
    ensures Filtrar(ds, Filtro("", "", "")) == ds
  {
    if ds != [] {
      FiltroVazioMantemTudo(ds[1..]);
    }
  }

  /** Filtering an already filtered list with the same criteria changes nothing. */
  lemma {:induction false} FiltrarIdempotente(ds: seq<Diaria>, f: Filtro)
    ensures Filtrar(Filtrar(ds, f), f) == Filtrar(ds, f)
  {
    if ds != [] {
      FiltrarIdempotente(ds[1..], f);
    }
  }

  /** Minimum "100" and maximum "200" over R$ 50, R$ 150 and R$ 250 keep only the
      R$ 150 record. */
  lemma ExemploFiltroPorFaixa()
    ensures var ds := [Diaria("1", "ANA", 5000, ""), Diaria("2", "ANA", 15000, ""), Diaria("3", "ANA", 25000, "")];
            Filtrar(ds, Filtro("", "100", "200")) == [ds[1]]
  {
    var ds := [Diaria("1", "ANA", 5000, ""), Diaria("2", "ANA", 15000, ""), Diaria("3", "ANA", 25000, "")];
    var f := Filtro("", "100", "200");
    LerTresDigitos('1', 100);
    LerTresDigitos('2', 200);
    MantemNaFaixa(ds[0], f, 10000, 20000);
    MantemNaFaixa(ds[1], f, 10000, 20000);
    MantemNaFaixa(ds[2], f, 10000, 20000);
    assert Filtrar(ds[2..], f) == [] by {
      assert ds[2..][1..] == [];
    }
    assert ds[1..][1..] == ds[2..];
    assert ds[1..] == [ds[1]] + ds[2..];
  }

  /** With the name field empty and both bounds numbers, a record is kept exactly
      when its amount lies between the two. */
  lemma MantemNaFaixa(d: Diaria, f: Filtro, minimo: int, maximo: int)
    requires f.militar == "" && f.valorMin != "" && f.valorMax != ""
    requires Interpretar(f.valorMin) == Some(minimo) && Interpretar(f.valorMax) == Some(maximo)
    ensures Mantem(d, f) <==> minimo <= d.valor <= maximo
  {
  }

  lemma LerTresDigitos(c: char, v: int)
    requires '1' <= c <= '9' && v == (c as int - '0' as int) * 100
    ensures Interpretar([c, '0', '0']) == Some(v * 100)
  {
    var s := [c, '0', '0'];
    assert SoDigitos(s);
    assert ValorDigitos([c]) == ValorDigito(c) by {
      assert [c][..0] == [];
    }
    assert ValorDigitos([c, '0']) == ValorDigito(c) * 10 by {
      assert [c, '0'][..1] == [c];
    }
    assert ValorDigitos(s) == ValorDigito(c) * 100 by {
      assert s[..2] == [c, '0'];
    }
    InterpretarInteiro(s);
  }

  /** A minimum with centavos is compared as such: "100.5" keeps a R$ 150 record and
      drops a R$ 100 one. */
  lemma ExemploFiltroComCentavos()
    ensures var ds := [Diaria("1", "ANA", 15000, ""), Diaria("2", "ANA", 10000, "")];
            Filtrar(ds, Filtro("", "100.5", "")) == [ds[0]]
  {
    var ds := [Diaria("1", "ANA", 15000, ""), Diaria("2", "ANA", 10000, "")];
    var f := Filtro("", "100.5", "");
    InterpretarCentavos();
    assert Mantem(ds[0], f) && !Mantem(ds[1], f);
    assert ds[1..][1..] == [];
  }

  /** Trailing zeros in a bound change nothing: minimum "100.500" keeps a R$ 150
      record as "100.5" does. */
  lemma ExemploFiltroZerosFinais()
    ensures var ds := [Diaria("1", "ANA", 15000, "")];
            Filtrar(ds, Filtro("", "100.500", "")) == ds
  {
    var ds := [Diaria("1", "ANA", 15000, "")];
    InterpretarZerosFinais();
    assert Mantem(ds[0], Filtro("", "100.500", ""));
    assert ds[1..] == [];
  }

  /** The name check ignores case on both sides: a name stored in upper case is
      found by a query typed in lower case, and the other way round. */
  lemma CasaNomeIgnoraCaixa(d: Diaria, f: Filtro)
    ensures CasaNome(d.(militarNome := Maiusculas(d.militarNome)), f) == CasaNome(d, f)
    ensures CasaNome(d, f.(militar := Maiusculas(f.militar))) == CasaNome(d, f)
  {
    MinusculasDeMaiusculas(d.militarNome);
    MinusculasDeMaiusculas(f.militar);
  }

  // ---------------------------------------------------------------- totals

  /** The sum of the values, as a plain structural recursion. */
  function Soma(ds: seq<Diaria>): int {
    if ds == [] then 0 else ds[0].valor + Soma(ds[1..])
  }

  /** `reduce((acc, d) => acc + d.valor, acc)`: a left fold from the accumulator. */
  function Acumular(ds: seq<Diaria>, acc: int): int {
    if ds == [] then acc else Acumular(ds[1..], acc + ds[0].valor)
  }

  /** `totalGasto`: the fold over the whole list, started at 0, which is the sum of
      the values of all records. */
  function TotalGasto(ds: seq<Diaria>): (t: int)
    ensures t == Soma(ds)
  {
    AcumularEhSoma(ds, 0);
    Acumular(ds, 0)
  }

  lemma {:induction false} AcumularEhSoma(ds: seq<Diaria>, acc: int)
    ensures Acumular(ds, acc) == acc + Soma(ds)
  {
    if ds != [] {
      AcumularEhSoma(ds[1..], acc + ds[0].valor);
    }
  }

  /** The records the filter leaves out. */
  function Descartadas(ds: seq<Diaria>, f: Filtro): (r: seq<Diaria>)
    ensures forall d :: d in r <==> d in ds && !Mantem(d, f)
  {
    if ds == [] then []
    else if Mantem(ds[0], f) then Descartadas(ds[1..], f)
    else [ds[0]] + Descartadas(ds[1..], f)
  }

  /** The total spent counts every record, filtered or not: it is the sum over the
      records the filter keeps plus the sum over those it leaves out. */
  lemma {:induction false} TotalGastoParticiona(ds: seq<Diaria>, f: Filtro)
    ensures TotalGasto(ds) == Soma(Filtrar(ds, f)) + Soma(Descartadas(ds, f))
  {
    SomaParticiona(ds, f);
  }

  lemma {:induction false} SomaParticiona(ds: seq<Diaria>, f: Filtro)
    ensures Soma(ds) == Soma(Filtrar(ds, f)) + Soma(Descartadas(ds, f))
  {
    if ds != [] {
      SomaParticiona(ds[1..], f);
    }
  }

  /** When no value is negative (the form's convention), what the filtered list
      adds up to never exceeds the total spent. */
  lemma FiltradasNaoExcedemTotal(ds: seq<Diaria>, f: Filtro)
    requires forall d :: d in ds ==> d.valor >= 0
    ensures Soma(Filtrar(ds, f)) <= TotalGasto(ds)
  {
    TotalGastoParticiona(ds, f);
    SomaNaoNegativa(Descartadas(ds, f));
  }

  lemma {:induction false} SomaNaoNegativa(ds: seq<Diaria>)
    requires forall d :: d in ds ==> d.valor >= 0
    ensures Soma(ds) >= 0
  {
    if ds != [] {
      SomaNaoNegativa(ds[1..]);
    }
  }

  // ---------------------------------------------------------------- balance

  /** `saldoDisponivel`: the allotment minus the total spent; negative once the
      records add up to more than the allotment. */
  function SaldoDisponivel(ds: seq<Diaria>): (r: int)
    ensures r + Soma(ds) == SALDO_MENSAL
    ensures r < 0 <==> Soma(ds) > SALDO_MENSAL
  {
    SALDO_MENSAL - TotalGasto(ds)
  }

  /** The colour the balance card uses. */
  datatype Cor = Verde | Vermelho

  /** Green at zero or above, red below zero. */
  function CorDoSaldo(saldo: int): (c: Cor)
    ensures c == Verde <==> saldo >= 0
  {
    if saldo >= 0 then Verde else Vermelho
  }

  /** Spending R$ 15.000 leaves R$ 45.000 (green); spending R$ 65.000 leaves
      -R$ 5.000 (red). */
  lemma ExemploSaldo(ds: seq<Diaria>)
    ensures Soma(ds) == 1500000 ==> SaldoDisponivel(ds) == 4500000 && CorDoSaldo(SaldoDisponivel(ds)) == Verde
    ensures Soma(ds) == 6500000 ==> SaldoDisponivel(ds) == -500000 && CorDoSaldo(SaldoDisponivel(ds)) == Vermelho
  {
  }
}
