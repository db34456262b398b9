/**
 * simular_sjf (src/simulador.c:64-114): non-preemptive Shortest Job First.
 * At every decision point the scan picks, among the processes that have
 * arrived and not finished, the one with the smallest burst (the lowest
 * index on ties); when none is ready the clock advances by one unit.
 */
module Sjf {
  import opened Processos
  import opened Escalonamento

  const CABECALHO_SJF: string := "Simulação SJF:\n"

  /** Row k reports process i = ordem[k], chosen after the processes
      ordem[..k] had finished and the CPU had become free at `livre`: i ran in
      one piece; it was, at its start, the ready process with the smallest
      burst and the lowest index among equals; the CPU did not start before
      it was free; and if it idled, no unfinished process had arrived before
      that start. */
  ghost predicate LinhaSjf(procs: seq<Processo>, ordem: seq<nat>, rows: seq<Metrica>, k: nat)
    requires k < |rows| && k < |ordem|
  {
    var feitos, livre, i, m := ordem[..k], LivreMetricas(rows, k), ordem[k], rows[k];
    && i < |procs|
    && ExecucaoContinua(procs[i], m)
    && livre <= m.inicio
    && MenorPronto(procs, Marcados(|procs|, feitos), m.inicio, MenorExecucao, i)
    && (livre < m.inicio ==>
          forall j :: 0 <= j < |procs| && j !in feitos ==> m.inicio <= procs[j].tempoChegada)
  }

  /** What the SJF loop keeps between decisions: rows[k] belongs to the
      distinct process ordem[k] and satisfies LinhaSjf, the clock `t` is not
      before the CPU became free, and if it is later, no unfinished process
      has arrived before `t`. */
  ghost predicate EstadoSjf(procs: seq<Processo>, rows: seq<Metrica>, ordem: seq<nat>, t: int)
  {
    && |rows| == |ordem|
    && (forall k :: 0 <= k < |ordem| ==> ordem[k] < |procs|)
    && (forall k, l :: 0 <= k < l < |ordem| ==> ordem[k] != ordem[l])
    && LivreMetricas(rows, |rows|) <= t
    && (LivreMetricas(rows, |rows|) < t ==>
          forall j :: 0 <= j < |procs| && j !in ordem ==> t <= procs[j].tempoChegada)
    && (forall k :: 0 <= k < |rows| ==> LinhaSjf(procs, ordem, rows, k))
  }

  /** An idle unit (src/simulador.c:89-92) keeps the state when no unfinished
      process has arrived by t. */
  lemma EstadoSjfOcioso(procs: seq<Processo>, rows: seq<Metrica>, ordem: seq<nat>, t: int)
    requires EstadoSjf(procs, rows, ordem, t)
    requires forall j :: 0 <= j < |procs| && j !in ordem ==> t < procs[j].tempoChegada
    ensures EstadoSjf(procs, rows, ordem, t + 1)
  {
  }

  /** Running the chosen process to completion (src/simulador.c:94-110)
      keeps the state with the clock at its finish time. */
  lemma EstadoSjfExecuta(procs: seq<Processo>, rows: seq<Metrica>, ordem: seq<nat>, t: int, i: nat, m: Metrica)
    requires EstadoSjf(procs, rows, ordem, t)
    requires i < |procs| && MenorPronto(procs, Marcados(|procs|, ordem), t, MenorExecucao, i)
    requires ExecucaoContinua(procs[i], m) && m.inicio == t
    ensures EstadoSjf(procs, rows + [m], ordem + [i], m.fim)
  {
    var rows1, ordem1 := rows + [m], ordem + [i];
    forall k | 0 <= k < |rows1|
      ensures LinhaSjf(procs, ordem1, rows1, k)
    {
      if k < |rows| {
        assert ordem1[..k] == ordem[..k] && ordem1[k] == ordem[k];
        assert rows1[k] == rows[k] && LivreMetricas(rows1, k) == LivreMetricas(rows, k);
        assert LinhaSjf(procs, ordem, rows, k);
      } else {
        assert ordem1[..k] == ordem;
        assert rows1[k] == m && LivreMetricas(rows1, k) == LivreMetricas(rows, |rows|);
      }
    }
  }

  /** simular_sjf. Row k belongs to process ordem[k]; every process is
      reported exactly once. A burst of INT_MAX would never be picked by the
      scan, whose running minimum starts there, and the C loop would spin. */
  method SimularSjf(procs: seq<Processo>) returns (rows: seq<Metrica>, ghost ordem: seq<nat>)
    requires forall i :: 0 <= i < |procs| ==> procs[i].tempoExecucao < INT_MAX
    ensures |rows| == |procs| && Permutacao(ordem, |procs|)
    ensures forall k :: 0 <= k < |procs| ==>
              LinhaSjf(procs, ordem, rows, k)
  {
    var n := |procs|;
    var tempoAtual := 0;
    var concluidos := 0;
    var finalizado := new bool[n](_ => false);
    rows, ordem := [], [];
    assert finalizado[..] == Marcados(n, ordem);
    ContaFalsosNenhum(finalizado[..]);
    while concluidos < n
      invariant 0 <= concluidos <= n && concluidos == n - ContaFalsos(finalizado[..])
      invariant |ordem| == concluidos && finalizado[..] == Marcados(n, ordem)
      invariant EstadoSjf(procs, rows, ordem, tempoAtual)
      decreases ContaFalsos(finalizado[..]), MaxChegada(procs) - tempoAtual
    {
      var indice := EscolherMenor(procs, finalizado[..], tempoAtual, MenorExecucao);
      if indice == -1 {
        OciosoAntesDaUltimaChegada(procs, finalizado[..], tempoAtual, MenorExecucao);
        EstadoSjfOcioso(procs, rows, ordem, tempoAtual);
        tempoAtual := tempoAtual + 1;
        continue;
      }
      var inicio := tempoAtual;
      var fim := inicio + procs[indice].tempoExecucao;
      var turnaround := fim - procs[indice].tempoChegada;
      var espera := inicio - procs[indice].tempoChegada;
      var linha := Metrica(procs[indice].pid, inicio, fim, turnaround, espera);
      EstadoSjfExecuta(procs, rows, ordem, tempoAtual, indice, linha);
      rows, ordem := rows + [linha], ordem + [indice];
      tempoAtual := fim;
      ContaFalsosMarca(finalizado[..], indice);
      finalizado[indice] := true;
      assert finalizado[..] == Marcados(n, ordem);
      concluidos := concluidos + 1;
    }
    ContaFalsosZero(finalizado[..]);
  }
}
