/**
 * simular_FIFO (src/simulador.c:19-61): bubble-sort the caller's list by
 * arrival time in place, then run the processes in that order, letting the
 * clock jump forward to an arrival whenever the CPU would otherwise idle.
 */
module Fifo {
  import opened Processos
  import opened Escalonamento

  const CABECALHO_FIFO: string := "Simulação FIFO:\n"

  /** Arrival times never decrease along the list. */
  ghost predicate OrdenadoPorChegada(s: seq<Processo>)
  {
    forall p, q :: 0 <= p < q < |s| ==> s[p].tempoChegada <= s[q].tempoChegada
  }

  /** The processes of `s` that arrive at time k, in their order in `s`. */
  function ChegamEm(s: seq<Processo>, k: int): seq<Processo>
  {
    if |s| == 0 then []
    else (if s[0].tempoChegada == k then [s[0]] else []) + ChegamEm(s[1..], k)
  }

  /** `s` and `t` list the processes of every arrival time in the same
      relative order: the relation a stable sort keeps between its input
      and its output. */
  ghost predicate MesmaOrdemPorChegada(s: seq<Processo>, t: seq<Processo>)
  {
    forall k :: ChegamEm(s, k) == ChegamEm(t, k)
  }

  lemma {:induction false} ChegamEmConcat(s: seq<Processo>, t: seq<Processo>, k: int)
    ensures ChegamEm(s + t, k) == ChegamEm(s, k) + ChegamEm(t, k)
  {
    if |s| > 0 {
      assert (s + t)[1..] == s[1..] + t;
      ChegamEmConcat(s[1..], t, k);
    } else {
      assert s + t == t;
    }
  }

  /** Swapping two neighbours with different arrival times keeps the order
      within every arrival time: this is why the strict `>` of the bubble
      sort makes it stable. */
  lemma TrocaVizinhosEstavel(s: seq<Processo>, j: nat)
    requires j + 1 < |s| && s[j].tempoChegada != s[j + 1].tempoChegada
    ensures MesmaOrdemPorChegada(Trocado(s, j), s)
  {
    var u := Trocado(s, j);
    assert s == s[..j] + ([s[j], s[j + 1]] + s[j + 2..]);
    assert u == s[..j] + ([s[j + 1], s[j]] + s[j + 2..]);
    forall k ensures ChegamEm(u, k) == ChegamEm(s, k) {
      ChegamEmConcat(s[..j], [s[j], s[j + 1]] + s[j + 2..], k);
      ChegamEmConcat(s[..j], [s[j + 1], s[j]] + s[j + 2..], k);
      ChegamEmConcat([s[j], s[j + 1]], s[j + 2..], k);
      ChegamEmConcat([s[j + 1], s[j]], s[j + 2..], k);
      assert ChegamEm([s[j], s[j + 1]], k) == ChegamEm([s[j + 1], s[j]], k) by {
        assert [s[j], s[j + 1]][1..] == [s[j + 1]];
        assert [s[j + 1], s[j]][1..] == [s[j]];
        assert [s[j]][1..] == [] && [s[j + 1]][1..] == [];
      }
    }
  }

  lemma {:induction false} ChegamEmElemento(s: seq<Processo>, k: int, x: Processo)
    requires x in ChegamEm(s, k)
    ensures x in s && x.tempoChegada == k
  {
    if |s| > 0 {
      if x != s[0] || s[0].tempoChegada != k {
        ChegamEmElemento(s[1..], k, x);
      }
    }
  }

  /** Lists with the same processes per arrival time are both empty or both not. */
  lemma VaziaSoComVazia(s: seq<Processo>, t: seq<Processo>)
    requires MesmaOrdemPorChegada(s, t)
    ensures |s| == 0 <==> |t| == 0
  {
    if |s| > 0 {
      assert ChegamEm(s, s[0].tempoChegada) != [];
    }
    if |t| > 0 {
      assert ChegamEm(t, t[0].tempoChegada) != [];
    }
  }

  /** A list sorted by arrival that keeps the order within each arrival time
      is unique: the sorted list FIFO runs is determined by the input alone. */
  lemma {:induction false} OrdenacaoEstavelUnica(s: seq<Processo>, t: seq<Processo>)
    requires OrdenadoPorChegada(s) && OrdenadoPorChegada(t)
    requires MesmaOrdemPorChegada(s, t)
    ensures s == t
    decreases |s| + |t|
  {
    VaziaSoComVazia(s, t);
    if |s| > 0 {
      var a, b := s[0].tempoChegada, t[0].tempoChegada;
      assert ChegamEm(s, a)[0] == s[0];
      assert ChegamEm(t, b)[0] == t[0];
      ChegamEmElemento(t, a, s[0]);
      ChegamEmElemento(s, b, t[0]);
      var x :| x in t && x.tempoChegada == a;
      var y :| y in s && y.tempoChegada == b;
      assert b <= a && a <= b;
      assert s[0] == t[0];
      forall k ensures ChegamEm(s[1..], k) == ChegamEm(t[1..], k) {
        var h := if a == k then [s[0]] else [];
        assert ChegamEm(s, k) == h + ChegamEm(s[1..], k);
        assert ChegamEm(t, k) == h + ChegamEm(t[1..], k);
        assert ChegamEm(s, k) == ChegamEm(t, k);
        assert ChegamEm(s[1..], k) == ChegamEm(s, k)[|h|..];
        assert ChegamEm(t[1..], k) == ChegamEm(t, k)[|h|..];
      }
      OrdenacaoEstavelUnica(s[1..], t[1..]);
      assert s == [s[0]] + s[1..] && t == [t[0]] + t[1..];
    }
  }

  /** The swap of src/simulador.c:31-33 on two neighbours. */
  method Trocar(a: array<Processo>, j: nat)
    requires j + 1 < a.Length
    modifies a
    ensures a[..] == Trocado(old(a[..]), j)
  {
    a[j], a[j + 1] := a[j + 1], a[j];
  }

  /** The ordering half of the state of a bubble pass over the first m
      elements after j steps: the latest arrival among the first j + 1 is at
      j, and the first m arrive no later than the rest. */
  ghost predicate OrdemBolha(s: seq<Processo>, m: nat, j: nat)
  {
    && 1 <= m <= |s| && j <= m - 1
    && (forall p :: 0 <= p <= j ==> s[p].tempoChegada <= s[j].tempoChegada)
    && (forall p, q :: 0 <= p < m <= q < |s| ==> s[p].tempoChegada <= s[q].tempoChegada)
  }

  /** The state of a bubble pass over the first m elements of `s0` after j
      steps: the ordering above, the rest untouched, and `s` holding the
      processes of `s0` in the same order within every arrival time. */
  ghost predicate Bolha(s: seq<Processo>, s0: seq<Processo>, m: nat, j: nat)
  {
    && |s| == |s0| && OrdemBolha(s, m, j)
    && (forall q :: m <= q < |s| ==> s[q] == s0[q])
    && multiset(s) == multiset(s0)
    && MesmaOrdemPorChegada(s, s0)
  }

  /** The swap of two neighbours, on sequences. */
  function Trocado(s: seq<Processo>, j: nat): (r: seq<Processo>)
    requires j + 1 < |s|
    ensures |r| == |s| && r[j] == s[j + 1] && r[j + 1] == s[j]
    ensures forall k :: 0 <= k < |s| && k != j && k != j + 1 ==> r[k] == s[k]
  {
    s[j := s[j + 1]][j + 1 := s[j]]
  }

  /** A swap keeps the processes: it is a permutation. */
  lemma TrocadoMultiset(s: seq<Processo>, j: nat)
    requires j + 1 < |s|
    ensures multiset(Trocado(s, j)) == multiset(s)
  {
    assert s == s[..j] + [s[j], s[j + 1]] + s[j + 2..];
    assert Trocado(s, j) == s[..j] + [s[j + 1], s[j]] + s[j + 2..];
  }

  /** The ordering half of one step of the pass. */
  lemma OrdemBolhaAvanca(s: seq<Processo>, s2: seq<Processo>, m: nat, j: nat)
    requires OrdemBolha(s, m, j) && j < m - 1
    requires s2 == if s[j].tempoChegada > s[j + 1].tempoChegada then Trocado(s, j) else s
    ensures OrdemBolha(s2, m, j + 1)
  {
    if s[j].tempoChegada > s[j + 1].tempoChegada {
      forall p, q | 0 <= p < m <= q < |s|
        ensures s2[p].tempoChegada <= s2[q].tempoChegada
      {
        if p != j && p != j + 1 {
          assert s2[p] == s[p];
        }
      }
    }
  }

  /** One step of the pass: compare positions j and j + 1 and swap them when
      the left one arrives strictly later. */
  lemma BolhaAvanca(s: seq<Processo>, s2: seq<Processo>, s0: seq<Processo>, m: nat, j: nat)
    requires Bolha(s, s0, m, j) && j < m - 1
    requires s2 == if s[j].tempoChegada > s[j + 1].tempoChegada then Trocado(s, j) else s
    ensures Bolha(s2, s0, m, j + 1)
  {
    OrdemBolhaAvanca(s, s2, m, j);
    if s[j].tempoChegada > s[j + 1].tempoChegada {
      TrocadoMultiset(s, j);
      TrocaVizinhosEstavel(s, j);
    }
  }

  /** One pass of the inner loop of the bubble sort (src/simulador.c:29-35)
      over the first m elements: the latest arrival among them moves to
      position m - 1, swapping neighbours only when the left one arrives
      strictly later. Elements from m on are not touched. */
  method Borbulhar(a: array<Processo>, m: nat)
    requires OrdemBolha(a[..], m, 0)
    modifies a
    ensures Bolha(a[..], old(a[..]), m, m - 1)
  {
    ghost var s0 := a[..];
    var j := 0;
    while j < m - 1
      invariant 0 <= j <= m - 1
      invariant Bolha(a[..], s0, m, j)
    {
      ghost var s := a[..];
      if a[j].tempoChegada > a[j + 1].tempoChegada {
        Trocar(a, j);
      }
      BolhaAvanca(s, a[..], s0, m, j);
      j := j + 1;
    }
  }

  /** The state of the bubble sort of `s0` after i passes: the last i
      positions are sorted and hold the latest arrivals, and `s` holds the
      processes of `s0` in the same order within every arrival time. */
  ghost predicate Ordenacao(s: seq<Processo>, s0: seq<Processo>, i: nat)
  {
    && |s| == |s0| && i <= |s|
    && (forall p, q :: |s| - i <= p < q < |s| ==> s[p].tempoChegada <= s[q].tempoChegada)
    && (forall p, q :: 0 <= p < |s| - i <= q < |s| ==> s[p].tempoChegada <= s[q].tempoChegada)
    && multiset(s) == multiset(s0)
    && MesmaOrdemPorChegada(s, s0)
  }

  /** Before pass i, the first n - i elements arrive no later than the rest. */
  lemma OrdenacaoPrepara(s: seq<Processo>, s0: seq<Processo>, i: nat, m: nat)
    requires Ordenacao(s, s0, i) && i < |s| && m == |s| - i
    ensures OrdemBolha(s, m, 0)
  {
  }

  /** A full bubble pass over the first n - i elements adds one position to
      the sorted tail. */
  lemma OrdenacaoAvanca(s: seq<Processo>, s2: seq<Processo>, s0: seq<Processo>, i: nat, m: nat)
    requires Ordenacao(s, s0, i) && i < |s| - 1 && m == |s| - i
    requires Bolha(s2, s, m, m - 1)
    ensures Ordenacao(s2, s0, i + 1)
  {
    forall p, q | m - 1 <= p < q < |s|
      ensures s2[p].tempoChegada <= s2[q].tempoChegada
    {
      if p >= m {
        assert s2[p] == s[p];
      }
    }
    forall p, q | 0 <= p < m - 1 <= q < |s|
      ensures s2[p].tempoChegada <= s2[q].tempoChegada
    {
    }
    forall k ensures ChegamEm(s2, k) == ChegamEm(s0, k) {
      assert ChegamEm(s2, k) == ChegamEm(s, k);
    }
  }

  /** After n - 1 passes (or none, for fewer than two elements) the whole
      list is sorted. */
  lemma OrdenacaoFim(s: seq<Processo>, s0: seq<Processo>, i: nat)
    requires Ordenacao(s, s0, i) && i + 1 >= |s|
    ensures OrdenadoPorChegada(s)
  {
    forall p, q | 0 <= p < q < |s|
      ensures s[p].tempoChegada <= s[q].tempoChegada
    {
      if p < |s| - i {
      }
    }
  }

  /** The bubble sort of src/simulador.c:28-36: n - 1 passes, pass i leaving
      the i + 1 latest arrivals sorted at the end. */
  method OrdenarPorChegada(a: array<Processo>)
    modifies a
    ensures OrdenadoPorChegada(a[..])
    ensures multiset(a[..]) == multiset(old(a[..]))
    ensures MesmaOrdemPorChegada(a[..], old(a[..]))
  {
    var n := a.Length;
    ghost var s0 := a[..];
    var i := 0;
    while i < n - 1
      invariant Ordenacao(a[..], s0, i)
    {
      ghost var antes := a[..];
      var m := n - i;
      OrdenacaoPrepara(antes, s0, i, m);
      Borbulhar(a, m);
      OrdenacaoAvanca(antes, a[..], s0, i, m);
      i := i + 1;
    }
    OrdenacaoFim(a[..], s0, i);
  }

  /** Row i reports process s[i], the CPU having become free at the end of
      row i - 1 (or at 0): s[i] ran in one piece from no earlier than that,
      and the CPU idled only while waiting for s[i] to arrive. */
  predicate LinhaFifo(s: seq<Processo>, rows: seq<Metrica>, i: nat)
    requires i < |s| && i < |rows|
  {
    var p, livre, m := s[i], LivreMetricas(rows, i), rows[i];
    && ExecucaoContinua(p, m)
    && livre <= m.inicio
    && (livre < m.inicio ==> m.inicio == p.tempoChegada)
  }

  /** The metrics loop of src/simulador.c:38-60 over the sorted list: process i
      starts when the CPU is free, or at its arrival if that is later, and runs
      to completion. */
  method MetricasFifo(s: seq<Processo>) returns (rows: seq<Metrica>)
    ensures |rows| == |s|
    ensures forall i :: 0 <= i < |s| ==> LinhaFifo(s, rows, i)
  {
    var tempoAtual := 0;
    rows := [];
    var i := 0;
    while i < |s|
      invariant 0 <= i <= |s| && |rows| == i
      invariant tempoAtual == LivreMetricas(rows, i)
      invariant forall k :: 0 <= k < i ==> LinhaFifo(s, rows, k)
    {
      if s[i].tempoChegada > tempoAtual {
        tempoAtual := s[i].tempoChegada;
      }
      var inicio := tempoAtual;
      var fim := inicio + s[i].tempoExecucao;
      var turnaround := fim - s[i].tempoChegada;
      var espera := inicio - s[i].tempoChegada;
      ghost var antes := rows;
      rows := rows + [Metrica(s[i].pid, inicio, fim, turnaround, espera)];
      forall k | 0 <= k < i
        ensures LinhaFifo(s, rows, k)
      {
        assert rows[k] == antes[k] && LivreMetricas(rows, k) == LivreMetricas(antes, k);
        assert LinhaFifo(s, antes, k);
      }
      tempoAtual := fim;
      i := i + 1;
    }
  }

  /** simular_FIFO: sorts the caller's array (the global list, passed in at
      src/interface.c:266) stably by arrival and reports one row per process
      in that order. */
  method SimularFifo(a: array<Processo>) returns (rows: seq<Metrica>)
    modifies a
    ensures OrdenadoPorChegada(a[..])
    ensures multiset(a[..]) == multiset(old(a[..]))
    ensures MesmaOrdemPorChegada(a[..], old(a[..]))
    ensures |rows| == a.Length
    ensures forall i :: 0 <= i < a.Length ==> LinhaFifo(a[..], rows, i)
  {
    OrdenarPorChegada(a);
    rows := MetricasFifo(a[..]);
  }
}
