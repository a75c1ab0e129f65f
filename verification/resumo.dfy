/**
 * The per-person summary (`resumoPorMilitar`): the filtered records grouped by
 * name into a dictionary of count and sum, listed in the order the names were
 * first met, then sorted by sum, largest first, by a stable sort.
 */
module Resumo {
  import opened Diarias

  /** The value the grouping dictionary holds per name. */
  datatype Dados = Dados(quantidade: nat, total: int)

  /** One summary card: `{ nome, quantidade, total }`. */
  datatype Entrada = Entrada(nome: string, quantidade: nat, total: int)

  // ---------------------------------------------------------------- what the grouping computes

  /** How many records carry the name `nome`. */
  function Quantidade(fs: seq<Diaria>, nome: string): nat {
    if fs == [] then 0
    else Quantidade(fs[..|fs| - 1], nome) + (if fs[|fs| - 1].militarNome == nome then 1 else 0)
  }

  /** The sum of the values of the records that carry the name `nome`. */
  function TotalDe(fs: seq<Diaria>, nome: string): int {
    if fs == [] then 0
    else TotalDe(fs[..|fs| - 1], nome) + (if fs[|fs| - 1].militarNome == nome then fs[|fs| - 1].valor else 0)
  }

  predicate SemRepeticao(ns: seq<string>) {
    forall i, j :: 0 <= i < j < |ns| ==> ns[i] != ns[j]
  }

  /** Some record carries the name `n`. */
  predicate Aparece(fs: seq<Diaria>, n: string) {
    exists i :: 0 <= i < |fs| && fs[i].militarNome == n
  }

  /** The distinct names of the records, in the order each was first met. */
  function Nomes(fs: seq<Diaria>): (ns: seq<string>)
    ensures SemRepeticao(ns)
    ensures forall n :: n in ns <==> Aparece(fs, n)
  {
    if fs == [] then []
    else
      var anterior := fs[..|fs| - 1];
      var p := Nomes(anterior);
      var n := fs[|fs| - 1].militarNome;
      assert forall m :: Aparece(fs, m) <==> Aparece(anterior, m) || m == n by {
        forall m | Aparece(anterior, m) ensures Aparece(fs, m) {
          var i :| 0 <= i < |anterior| && anterior[i].militarNome == m;
          assert fs[i] == anterior[i];
        }
        forall m | Aparece(fs, m) && m != n ensures Aparece(anterior, m) {
          var i :| 0 <= i < |fs| && fs[i].militarNome == m;
          assert anterior[i] == fs[i];
        }
        assert Aparece(fs, n) by { assert fs[|fs| - 1].militarNome == n; }
      }
      if n in p then p else p + [n]
  }

  /** A name no record carries has count 0 and sum 0. */
  lemma {:induction false} AusenteNaoConta(fs: seq<Diaria>, n: string)
    requires !Aparece(fs, n)
    ensures Quantidade(fs, n) == 0 && TotalDe(fs, n) == 0
  {
    if fs != [] {
      var anterior := fs[..|fs| - 1];
      assert forall i :: 0 <= i < |anterior| ==> anterior[i] == fs[i];
      AusenteNaoConta(anterior, n);
    }
  }

  // ---------------------------------------------------------------- the grouping loop

  /** The `forEach` that fills the `resumo` dictionary: for each record, create the
      entry for its name if it is missing, then add one to the count and the value
      to the sum. `ordem` is the dictionary's key order (insertion order). */
  method Agrupar(fs: seq<Diaria>) returns (resumo: map<string, Dados>, ordem: seq<string>)
    ensures ordem == Nomes(fs)
    ensures forall n :: n in resumo <==> n in ordem
    ensures forall n :: n in resumo ==> resumo[n] == Dados(Quantidade(fs, n), TotalDe(fs, n))
  {
    resumo := map[];
    ordem := [];
    for i := 0 to |fs|
      invariant ordem == Nomes(fs[..i])
      invariant forall n :: n in resumo <==> n in ordem
      invariant forall n :: n in resumo ==> resumo[n] == Dados(Quantidade(fs[..i], n), TotalDe(fs[..i], n))
    {
      var d := fs[i];
      assert fs[..i + 1][..i] == fs[..i] && fs[..i + 1][i] == d;
      if d.militarNome !in resumo {
        AusenteNaoConta(fs[..i], d.militarNome);
        resumo := resumo[d.militarNome := Dados(0, 0)];
        ordem := ordem + [d.militarNome];
      }
      var atual := resumo[d.militarNome];
      resumo := resumo[d.militarNome := Dados(atual.quantidade + 1, atual.total + d.valor)];
    }
    assert fs[..|fs|] == fs;
  }

  /** `Object.entries(resumo).map(([nome, dados]) => ({ nome, ...dados }))`, keys in `ordem`. */
  function Entradas(resumo: map<string, Dados>, ordem: seq<string>): (r: seq<Entrada>)
    requires forall n :: n in ordem ==> n in resumo
    ensures |r| == |ordem|
    ensures forall i :: 0 <= i < |ordem| ==> r[i].nome == ordem[i]
    ensures forall e :: e in r ==> e.nome in ordem && resumo[e.nome] == Dados(e.quantidade, e.total)
  {
    seq(|ordem|, i requires 0 <= i < |ordem| => Entrada(ordem[i], resumo[ordem[i]].quantidade, resumo[ordem[i]].total))
  }

  /** The summary entries before sorting: one per distinct name, in first-seen order. */
  function EntradasDe(ns: seq<string>, fs: seq<Diaria>): seq<Entrada> {
    seq(|ns|, i requires 0 <= i < |ns| => Entrada(ns[i], Quantidade(fs, ns[i]), TotalDe(fs, ns[i])))
  }

  function EntradasEsperadas(fs: seq<Diaria>): seq<Entrada> {
    EntradasDe(Nomes(fs), fs)
  }

  // ---------------------------------------------------------------- the sort

  /** Largest total first. */
  predicate OrdenadoPorTotal(s: seq<Entrada>) {
    forall i, j :: 0 <= i < j < |s| ==> s[i].total >= s[j].total
  }

  /** Puts `x` in front of the first entry whose total is not larger than its own. */
  function InserirNaOrdem(x: Entrada, s: seq<Entrada>): (r: seq<Entrada>)
    ensures multiset(r) == multiset(s) + multiset{x}
  {
    if s == [] || s[0].total <= x.total then [x] + s
    else
      assert s == [s[0]] + s[1..];
      [s[0]] + InserirNaOrdem(x, s[1..])
  }

  lemma InserirMembros(x: Entrada, s: seq<Entrada>)
    ensures forall e :: e in InserirNaOrdem(x, s) <==> e == x || e in s
  {
    var r := InserirNaOrdem(x, s);
    forall e ensures e in r <==> e == x || e in s {
      assert e in r <==> multiset(r)[e] > 0;
      assert e in s <==> multiset(s)[e] > 0;
    }
  }

  lemma {:induction false} InserirOrdenado(x: Entrada, s: seq<Entrada>)
    requires OrdenadoPorTotal(s)
    ensures OrdenadoPorTotal(InserirNaOrdem(x, s))
  {
    if !(s == [] || s[0].total <= x.total) {
      var t := InserirNaOrdem(x, s[1..]);
      InserirOrdenado(x, s[1..]);
      InserirMembros(x, s[1..]);
      CabecaDomina(s);
      var r := [s[0]] + t;
      forall i, j | 0 <= i < j < |r| ensures r[i].total >= r[j].total {
        assert r[j] == t[j - 1];
        if i == 0 {
          assert t[j - 1] in t;
        } else {
          assert r[i] == t[i - 1];
        }
      }
    }
  }

  lemma CabecaDomina(s: seq<Entrada>)
    requires s != [] && OrdenadoPorTotal(s)
    ensures forall e :: e in s[1..] ==> e.total <= s[0].total
  {
    forall e | e in s[1..] ensures e.total <= s[0].total {
      var k :| 0 <= k < |s[1..]| && s[1..][k] == e;
      assert s[k + 1] == e;
    }
  }

  /** `.sort((a, b) => b.total - a.total)`: a stable sort, largest total first. */
  function Ordenar(s: seq<Entrada>): (r: seq<Entrada>)
    ensures OrdenadoPorTotal(r)
    ensures multiset(r) == multiset(s)
  {
    if s == [] then []
    else
      assert s == [s[0]] + s[1..];
      InserirOrdenado(s[0], Ordenar(s[1..]));
      InserirNaOrdem(s[0], Ordenar(s[1..]))
  }

  /** The entries whose total is `t`, in order. */
  function ComTotal(s: seq<Entrada>, t: int): seq<Entrada> {
    if s == [] then [] else (if s[0].total == t then [s[0]] else []) + ComTotal(s[1..], t)
  }

  lemma {:induction false} InserirEstavel(x: Entrada, s: seq<Entrada>, t: int)
    ensures ComTotal(InserirNaOrdem(x, s), t) == (if x.total == t then [x] else []) + ComTotal(s, t)
  {
    if s == [] || s[0].total <= x.total {
      assert ([x] + s)[1..] == s;
    } else {
      InserirEstavel(x, s[1..], t);
      assert ([s[0]] + InserirNaOrdem(x, s[1..]))[1..] == InserirNaOrdem(x, s[1..]);
    }
  }

  /** The sort is stable: entries with equal totals keep their relative order. */
  lemma {:induction false} OrdenarEstavel(s: seq<Entrada>, t: int)
    ensures ComTotal(Ordenar(s), t) == ComTotal(s, t)
  {
    if s != [] {
      OrdenarEstavel(s[1..], t);
      InserirEstavel(s[0], Ordenar(s[1..]), t);
    }
  }

  lemma MembrosIguais(a: seq<Entrada>, b: seq<Entrada>)
    requires multiset(a) == multiset(b)
    ensures forall e :: e in a <==> e in b
  {
    forall e ensures e in a <==> e in b {
      assert e in a <==> multiset(a)[e] > 0;
      assert e in b <==> multiset(b)[e] > 0;
    }
  }

  predicate NomesDistintos(s: seq<Entrada>) {
    forall i, j :: 0 <= i < j < |s| ==> s[i].nome != s[j].nome
  }

  lemma {:induction false} InserirNomesDistintos(x: Entrada, s: seq<Entrada>)
    requires NomesDistintos(s)
    requires forall e :: e in s ==> e.nome != x.nome
    ensures NomesDistintos(InserirNaOrdem(x, s))
  {
    if !(s == [] || s[0].total <= x.total) {
      InserirNomesDistintos(x, s[1..]);
      var r := InserirNaOrdem(x, s[1..]);
      InserirMembros(x, s[1..]);
      assert forall e :: e in r ==> e.nome != s[0].nome;
    }
  }

  /** Sorting keeps the names of the entries distinct. */
  lemma {:induction false} OrdenarNomesDistintos(s: seq<Entrada>)
    requires NomesDistintos(s)
    ensures NomesDistintos(Ordenar(s))
  {
    if s != [] {
      OrdenarNomesDistintos(s[1..]);
      var r := Ordenar(s[1..]);
      MembrosIguais(r, s[1..]);
      InserirNomesDistintos(s[0], r);
    }
  }

  // ---------------------------------------------------------------- counts add up

  function SomaQuantidades(s: seq<Entrada>): int {
    if s == [] then 0 else s[0].quantidade + SomaQuantidades(s[1..])
  }

  lemma {:induction false} SomaQuantidadesInserir(x: Entrada, s: seq<Entrada>)
    ensures SomaQuantidades(InserirNaOrdem(x, s)) == x.quantidade + SomaQuantidades(s)
  {
    if !(s == [] || s[0].total <= x.total) {
      SomaQuantidadesInserir(x, s[1..]);
    }
  }

  lemma {:induction false} SomaQuantidadesOrdenar(s: seq<Entrada>)
    ensures SomaQuantidades(Ordenar(s)) == SomaQuantidades(s)
  {
    if s != [] {
      SomaQuantidadesOrdenar(s[1..]);
      SomaQuantidadesInserir(s[0], Ordenar(s[1..]));
    }
  }

  lemma {:induction false} SomaQuantidadesFim(a: seq<Entrada>, e: Entrada)
    ensures SomaQuantidades(a + [e]) == SomaQuantidades(a) + e.quantidade
  {
    if a == [] {
      assert [] + [e] == [e];
    } else {
      assert (a + [e])[1..] == a[1..] + [e];
      SomaQuantidadesFim(a[1..], e);
    }
  }

  lemma EntradasDeFim(ns: seq<string>, n: string, fs: seq<Diaria>)
    ensures EntradasDe(ns + [n], fs) == EntradasDe(ns, fs) + [Entrada(n, Quantidade(fs, n), TotalDe(fs, n))]
  {
  }

  /** One more record adds one to the count of its own name and to no other. */
  lemma {:induction false} SomaQuantidadesNovoRegistro(ns: seq<string>, fs: seq<Diaria>, d: Diaria)
    requires SemRepeticao(ns)
    ensures SomaQuantidades(EntradasDe(ns, fs + [d]))
         == SomaQuantidades(EntradasDe(ns, fs)) + (if d.militarNome in ns then 1 else 0)
  {
    if ns == [] {
      assert EntradasDe(ns, fs + [d]) == [] && EntradasDe(ns, fs) == [];
    } else {
      var q := ns[..|ns| - 1];
      var m := ns[|ns| - 1];
      assert ns == q + [m];
      SomaQuantidadesNovoRegistro(q, fs, d);
      EntradasDeFim(q, m, fs + [d]);
      EntradasDeFim(q, m, fs);
      SomaQuantidadesFim(EntradasDe(q, fs + [d]), Entrada(m, Quantidade(fs + [d], m), TotalDe(fs + [d], m)));
      SomaQuantidadesFim(EntradasDe(q, fs), Entrada(m, Quantidade(fs, m), TotalDe(fs, m)));
      assert (fs + [d])[..|fs|] == fs;
      assert d.militarNome == m ==> d.militarNome !in q;
    }
  }

  /** The counts of the entries add up to the number of records. */
  lemma {:induction false} SomaDasQuantidades(fs: seq<Diaria>)
    ensures SomaQuantidades(EntradasEsperadas(fs)) == |fs|
  {
    if fs == [] {
      assert EntradasEsperadas(fs) == [];
    } else {
      var p := fs[..|fs| - 1];
      var d := fs[|fs| - 1];
      assert fs == p + [d];
      SomaDasQuantidades(p);
      SomaQuantidadesNovoRegistro(Nomes(p), p, d);
      var n := d.militarNome;
      if n !in Nomes(p) {
        EntradasDeFim(Nomes(p), n, fs);
        SomaQuantidadesFim(EntradasDe(Nomes(p), fs), Entrada(n, Quantidade(fs, n), TotalDe(fs, n)));
        AusenteNaoConta(p, n);
      }
    }
  }

  // ---------------------------------------------------------------- the summary

  /** What the page shows as the summary of the records `fs`. */
  function ResumoEsperado(fs: seq<Diaria>): seq<Entrada> {
    Ordenar(EntradasEsperadas(fs))
  }

  /** `resumoPorMilitar`: group with the loop, list the dictionary, sort. */
  method ResumoPorMilitar(fs: seq<Diaria>) returns (r: seq<Entrada>)
    ensures r == ResumoEsperado(fs)
  {
    var resumo, ordem := Agrupar(fs);
    var entradas := Entradas(resumo, ordem);
    assert entradas == EntradasEsperadas(fs);
    r := Ordenar(entradas);
  }

  /** The summary is sorted by total, largest first, and entries with equal totals
      appear in the order their names were first met in the records. */
  lemma ResumoOrdenado(fs: seq<Diaria>, t: int)
    ensures OrdenadoPorTotal(ResumoEsperado(fs))
    ensures ComTotal(ResumoEsperado(fs), t) == ComTotal(EntradasEsperadas(fs), t)
  {
    OrdenarEstavel(EntradasEsperadas(fs), t);
  }

  /** Exactly one entry per distinct name, each with the count and sum of that name's
      records, and the counts add up to the number of records. */
  lemma ResumoUmPorNome(fs: seq<Diaria>)
    ensures NomesDistintos(ResumoEsperado(fs))
    ensures forall n :: (exists e :: e in ResumoEsperado(fs) && e.nome == n) <==> Aparece(fs, n)
    ensures forall e :: e in ResumoEsperado(fs) ==>
              e.quantidade == Quantidade(fs, e.nome) && e.total == TotalDe(fs, e.nome)
    ensures SomaQuantidades(ResumoEsperado(fs)) == |fs|
  {
    var es := EntradasEsperadas(fs);
    var r := ResumoEsperado(fs);
    assert NomesDistintos(es);
    OrdenarNomesDistintos(es);
    MembrosIguais(r, es);
    forall n ensures (exists e :: e in r && e.nome == n) <==> Aparece(fs, n) {
      if Aparece(fs, n) {
        var i :| 0 <= i < |Nomes(fs)| && Nomes(fs)[i] == n;
        assert es[i] in r && es[i].nome == n;
      }
    }
    SomaDasQuantidades(fs);
    SomaQuantidadesOrdenar(es);
  }

  /** Records ALICE R$ 100, BOB R$ 50, ALICE R$ 200 give the summary ALICE 2 / R$ 300,
      BOB 1 / R$ 50. */
  lemma ExemploResumo()
    ensures ResumoEsperado([Diaria("1", "ALICE", 10000, ""), Diaria("2", "BOB", 5000, ""), Diaria("3", "ALICE", 20000, "")])
         == [Entrada("ALICE", 2, 30000), Entrada("BOB", 1, 5000)]
  {
    var es := [Entrada("ALICE", 2, 30000), Entrada("BOB", 1, 5000)];
    ExemploAgrupamento();
    assert es[1..][1..] == [];
    assert Ordenar(es[1..]) == [Entrada("BOB", 1, 5000)];
  }

  lemma ExemploAgrupamento()
    ensures EntradasEsperadas([Diaria("1", "ALICE", 10000, ""), Diaria("2", "BOB", 5000, ""), Diaria("3", "ALICE", 20000, "")])
         == [Entrada("ALICE", 2, 30000), Entrada("BOB", 1, 5000)]
  {
    var a1, b, a2 := Diaria("1", "ALICE", 10000, ""), Diaria("2", "BOB", 5000, ""), Diaria("3", "ALICE", 20000, "");
    var fs := [a1, b, a2];
    assert "ALICE" != "BOB" by { assert "ALICE"[0] != "BOB"[0]; }
    assert [a1] == [] + [a1] && [a1, b] == [a1] + [b] && fs == [a1, b] + [a2];
    UltimoRegistro([], a1, "ALICE");
    UltimoRegistro([], a1, "BOB");
    UltimoRegistro([a1], b, "ALICE");
    UltimoRegistro([a1], b, "BOB");
    UltimoRegistro([a1, b], a2, "ALICE");
    UltimoRegistro([a1, b], a2, "BOB");
    assert Nomes(fs) == ["ALICE", "BOB"];
  }

  /** How one more record at the end changes the counts, the sums and the names. */
  lemma UltimoRegistro(fs: seq<Diaria>, d: Diaria, n: string)
    ensures Quantidade(fs + [d], n) == Quantidade(fs, n) + (if d.militarNome == n then 1 else 0)
    ensures TotalDe(fs + [d], n) == TotalDe(fs, n) + (if d.militarNome == n then d.valor else 0)
    ensures Nomes(fs + [d]) == if d.militarNome in Nomes(fs) then Nomes(fs) else Nomes(fs) + [d.militarNome]
  {
    assert (fs + [d])[..|fs|] == fs;
  }
}
