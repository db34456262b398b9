/**
 * simular_prioridade (src/simulador.c:218-303): preemptive priority
 * scheduling, one time unit per decision. At every unit the scan picks, among
 * the processes that have arrived and not finished, the one with the lowest
 * `prioridade` (the lowest index on ties) and runs it for one unit; when none
 * is ready the clock advances without a trace entry.
 *
 * A trace entry Intervalo(t, t + 1, pid, r) is the line "Tempo t: PID pid
 * (restante: r)" of the C output: that process held the CPU during [t, t + 1).
 */
module Prioridade {
  import opened Processos
  import opened Escalonamento

  const CABECALHO_PRIORIDADE: string := "Simulação Prioridade Preemptiva:\n"

  /** Trace entry m lasts one unit and went to the ready process of lowest
      priority (lowest index on ties) at its time, the processes finished at
      that time being those whose finish time fimDe[j] has passed. */
  ghost predicate PassoPrioridade(procs: seq<Processo>, fimDe: seq<int>, trace: seq<Intervalo>, donos: seq<nat>, m: nat)
    requires m < |trace| == |donos|
  {
    && trace[m].fim == trace[m].inicio + 1
    && MenorPronto(procs, Terminados(fimDe, trace[m].inicio), trace[m].inicio, MenorPrioridade, donos[m])
  }

  /** The counters of the loop: the clock, the remaining work and the flags.
      Every trace entry is one unit of work, the clock idled only up to the
      latest arrival, a process is finished exactly when nothing remains, and
      what a process has run fits between its arrival and the clock. */
  ghost predicate Contas(procs: seq<Processo>, t: int, rest: seq<int>, fin: seq<bool>, ordem: seq<nat>, passos: nat)
  {
    && |rest| == |procs| && |fin| == |procs|
    && 0 <= t <= MaxChegada(procs) + passos
    && passos + SomaInt(rest) == SomaExecucao(procs)
    && (forall i :: 0 <= i < |procs| ==> 0 <= rest[i] <= procs[i].tempoExecucao)
    && (forall i :: 0 <= i < |procs| ==> (fin[i] <==> rest[i] == 0))
    && (forall i :: 0 <= i < |procs| ==>
          rest[i] == procs[i].tempoExecucao || procs[i].tempoExecucao - rest[i] <= t - procs[i].tempoChegada)
    && fin == Marcados(|procs|, ordem)
    && (forall k :: 0 <= k < |ordem| ==> ordem[k] < |procs|)
    && (forall k, l :: 0 <= k < l < |ordem| ==> ordem[k] != ordem[l])
  }

  /** The decisions recorded in the trace, judged with the finish times
      `fimDe`: a finished process finished by the end of the trace, at the
      end of its entry with nothing left; an unfinished one has Horizonte;
      every entry went to the right process and every idle gap was forced. */
  ghost predicate Escolhas(procs: seq<Processo>, fin: seq<bool>, trace: seq<Intervalo>, donos: seq<nat>, fimDe: seq<int>)
  {
    && |fin| == |procs| && |fimDe| == |procs| && |trace| == |donos|
    && (forall m :: 0 <= m < |trace| ==> PassoPrioridade(procs, fimDe, trace, donos, m))
    && OciosidadeJustificada(procs, fimDe, trace)
    && (forall i :: 0 <= i < |procs| && fin[i] ==> fimDe[i] <= LivreTrace(trace, |trace|))
    && (forall i :: 0 <= i < |procs| && !fin[i] ==> fimDe[i] == Horizonte(procs))
    && (forall m :: 0 <= m < |trace| && donos[m] < |procs| && trace[m].restante == 0 ==> fimDe[donos[m]] == trace[m].fim)
  }

  // ---------------------------------------------------------------------
  // One idle unit (src/simulador.c:257-260)
  // ---------------------------------------------------------------------

  lemma ContasOcioso(procs: seq<Processo>, t: int, rest: seq<int>, fin: seq<bool>, ordem: seq<nat>, passos: nat)
    requires Contas(procs, t, rest, fin, ordem, passos) && t < MaxChegada(procs)
    ensures Contas(procs, t + 1, rest, fin, ordem, passos)
  {
  }

  lemma FormaOcioso(procs: seq<Processo>, t: int, rest: seq<int>, fin: seq<bool>, ordem: seq<nat>,
                    trace: seq<Intervalo>, donos: seq<nat>)
    requires Contas(procs, t, rest, fin, ordem, |trace|) && Forma(procs, t, rest, fin, trace, donos)
    requires t < MaxChegada(procs)
    requires forall j :: 0 <= j < |procs| && !fin[j] ==> t < procs[j].tempoChegada
    ensures Forma(procs, t + 1, rest, fin, trace, donos)
  {
    SomaIntLimites(rest, procs);
  }

  // ---------------------------------------------------------------------
  // One unit of work for process i (src/simulador.c:262-293)
  // ---------------------------------------------------------------------

  lemma ContasExecuta(procs: seq<Processo>, t: int, rest: seq<int>, fin: seq<bool>, ordem: seq<nat>, passos: nat,
                      i: nat, rest2: seq<int>, fin2: seq<bool>, ordem2: seq<nat>)
    requires Contas(procs, t, rest, fin, ordem, passos) && Pronto(procs, fin, t, i)
    requires rest2 == rest[i := rest[i] - 1]
    requires fin2 == (if rest[i] == 1 then fin[i := true] else fin)
    requires ordem2 == (if rest[i] == 1 then ordem + [i] else ordem)
    ensures Contas(procs, t + 1, rest2, fin2, ordem2, passos + 1)
    ensures 0 <= SomaInt(rest2) < SomaInt(rest)
  {
    RestoDiminui(procs, rest, i, 1);
    if rest[i] == 1 {
      assert i !in ordem;
      assert fin2 == Marcados(|procs|, ordem2);
    }
  }

  lemma EscolhasExecuta(procs: seq<Processo>, t: int, rest: seq<int>, fin: seq<bool>,
                        trace: seq<Intervalo>, donos: seq<nat>, fimDe: seq<int>, i: nat,
                        fin2: seq<bool>, fimDe2: seq<int>)
    requires Escolhas(procs, fin, trace, donos, fimDe)
    requires |rest| == |procs| && t < Horizonte(procs)
    requires forall m :: 0 <= m < |trace| ==> trace[m].inicio < trace[m].fim <= t
    requires LivreTrace(trace, |trace|) <= t
    requires LivreTrace(trace, |trace|) < t ==>
               forall j :: 0 <= j < |procs| && !fin[j] ==> t <= procs[j].tempoChegada
    requires MenorPronto(procs, fin, t, MenorPrioridade, i)
    requires fin2 == (if rest[i] == 1 then fin[i := true] else fin)
    requires fimDe2 == (if rest[i] == 1 then fimDe[i := t + 1] else fimDe)
    ensures Escolhas(procs, fin2, trace + [Intervalo(t, t + 1, procs[i].pid, rest[i] - 1)], donos + [i], fimDe2)
  {
    var e := Intervalo(t, t + 1, procs[i].pid, rest[i] - 1);
    var trace2, donos2 := trace + [e], donos + [i];
    assert Terminados(fimDe2, t) == fin;
    forall m | 0 <= m < |trace2|
      ensures PassoPrioridade(procs, fimDe2, trace2, donos2, m)
    {
      if m < |trace| {
        assert trace2[m] == trace[m] && donos2[m] == donos[m];
        assert Terminados(fimDe2, trace[m].inicio) == Terminados(fimDe, trace[m].inicio);
        assert PassoPrioridade(procs, fimDe, trace, donos, m);
      }
    }
    forall m, j | 0 <= m < |trace2| && 0 <= j < |procs|
      ensures EsperaForcada(procs, fimDe2, trace2, m, j)
    {
      if m < |trace| {
        assert trace2[m] == trace[m] && LivreTrace(trace2, m) == LivreTrace(trace, m);
        assert EsperaForcada(procs, fimDe, trace, m, j);
      }
    }
    forall m | 0 <= m < |trace2| && donos2[m] < |procs| && trace2[m].restante == 0
      ensures fimDe2[donos2[m]] == trace2[m].fim
    {
      if m < |trace| {
        assert trace2[m] == trace[m] && donos2[m] == donos[m];
      }
    }
  }

  // ---------------------------------------------------------------------
  // The loop invariant as one state predicate
  // ---------------------------------------------------------------------

  /** Everything the loop of simular_prioridade keeps: the counters, the shape
      of the trace, the decisions it records, the recorded start times and the
      summary table. */
  ghost predicate Estado(procs: seq<Processo>, t: int, rest: seq<int>, fin: seq<bool>, ini: seq<int>,
                         trace: seq<Intervalo>, donos: seq<nat>, rows: seq<Metrica>, ordem: seq<nat>, fimDe: seq<int>)
  {
    && Contas(procs, t, rest, fin, ordem, |trace|)
    && Forma(procs, t, rest, fin, trace, donos)
    && Escolhas(procs, fin, trace, donos, fimDe)
    && Inicios(procs, ini, trace, donos)
    && Resumo(procs, t, ini, rows, ordem, fimDe)
  }

  /** An idle unit keeps the invariant when no unfinished process has arrived. */
  lemma EstadoOcioso(procs: seq<Processo>, t: int, rest: seq<int>, fin: seq<bool>, ini: seq<int>,
                     trace: seq<Intervalo>, donos: seq<nat>, rows: seq<Metrica>, ordem: seq<nat>, fimDe: seq<int>)
    requires Estado(procs, t, rest, fin, ini, trace, donos, rows, ordem, fimDe)
    requires t < MaxChegada(procs)
    requires forall j :: 0 <= j < |procs| && !fin[j] ==> t < procs[j].tempoChegada
    ensures Estado(procs, t + 1, rest, fin, ini, trace, donos, rows, ordem, fimDe)
  {
    ContasOcioso(procs, t, rest, fin, ordem, |trace|);
    FormaOcioso(procs, t, rest, fin, ordem, trace, donos);
    ResumoOcioso(procs, t, ini, rows, ordem, fimDe);
  }

  // The successor state of one unit of work for process i is written out
  // with the same expressions in every lemma below, so that their contracts
  // fit together without further proof.

  lemma ContasApos(procs: seq<Processo>, t: int, rest: seq<int>, fin: seq<bool>, ini: seq<int>,
                      trace: seq<Intervalo>, donos: seq<nat>, rows: seq<Metrica>, ordem: seq<nat>, fimDe: seq<int>, i: nat)
    requires Estado(procs, t, rest, fin, ini, trace, donos, rows, ordem, fimDe)
    requires MenorPronto(procs, fin, t, MenorPrioridade, i)
    ensures Contas(procs, t + 1, rest[i := rest[i] - 1], if rest[i] == 1 then fin[i := true] else fin,
                   if rest[i] == 1 then ordem + [i] else ordem, |trace| + 1)
    ensures 0 <= SomaInt(rest[i := rest[i] - 1]) < SomaInt(rest)
  {
    assert i !in ordem;
    ContasExecuta(procs, t, rest, fin, ordem, |trace|, i, rest[i := rest[i] - 1],
                  if rest[i] == 1 then fin[i := true] else fin, if rest[i] == 1 then ordem + [i] else ordem);
  }

  lemma FormaApos(procs: seq<Processo>, t: int, rest: seq<int>, fin: seq<bool>, ini: seq<int>,
                      trace: seq<Intervalo>, donos: seq<nat>, rows: seq<Metrica>, ordem: seq<nat>, fimDe: seq<int>, i: nat)
    requires Estado(procs, t, rest, fin, ini, trace, donos, rows, ordem, fimDe)
    requires MenorPronto(procs, fin, t, MenorPrioridade, i)
    ensures Forma(procs, t + 1, rest[i := rest[i] - 1], if rest[i] == 1 then fin[i := true] else fin,
                  trace + [Intervalo(t, t + 1, procs[i].pid, rest[i] - 1)], donos + [i])
  {
    ContasApos(procs, t, rest, fin, ini, trace, donos, rows, ordem, fimDe, i);
    FormaExtende(procs, t, 1, rest, fin, trace, donos, i, rest[i := rest[i] - 1],
                 if rest[i] == 1 then fin[i := true] else fin, t + 1, Intervalo(t, t + 1, procs[i].pid, rest[i] - 1),
                 trace + [Intervalo(t, t + 1, procs[i].pid, rest[i] - 1)], donos + [i]);
  }

  lemma EscolhasApos(procs: seq<Processo>, t: int, rest: seq<int>, fin: seq<bool>, ini: seq<int>,
                      trace: seq<Intervalo>, donos: seq<nat>, rows: seq<Metrica>, ordem: seq<nat>, fimDe: seq<int>, i: nat)
    requires Estado(procs, t, rest, fin, ini, trace, donos, rows, ordem, fimDe)
    requires MenorPronto(procs, fin, t, MenorPrioridade, i)
    ensures Escolhas(procs, if rest[i] == 1 then fin[i := true] else fin,
                     trace + [Intervalo(t, t + 1, procs[i].pid, rest[i] - 1)], donos + [i],
                     if rest[i] == 1 then fimDe[i := t + 1] else fimDe)
  {
    EscolhasExecuta(procs, t, rest, fin, trace, donos, fimDe, i,
                    if rest[i] == 1 then fin[i := true] else fin, if rest[i] == 1 then fimDe[i := t + 1] else fimDe);
  }

  lemma IniciosApos(procs: seq<Processo>, t: int, rest: seq<int>, fin: seq<bool>, ini: seq<int>,
                      trace: seq<Intervalo>, donos: seq<nat>, rows: seq<Metrica>, ordem: seq<nat>, fimDe: seq<int>, i: nat)
    requires Estado(procs, t, rest, fin, ini, trace, donos, rows, ordem, fimDe)
    requires MenorPronto(procs, fin, t, MenorPrioridade, i)
    ensures Inicios(procs, if ini[i] == 0 then ini[i := t] else ini,
                    trace + [Intervalo(t, t + 1, procs[i].pid, rest[i] - 1)], donos + [i])
  {
    IniciosExtende(procs, ini, trace, donos, Intervalo(t, t + 1, procs[i].pid, rest[i] - 1), i,
                   if ini[i] == 0 then ini[i := t] else ini);
  }

  lemma ResumoExecuta(procs: seq<Processo>, t: int, rest: seq<int>, fin: seq<bool>, ini: seq<int>,
                      rows: seq<Metrica>, ordem: seq<nat>, fimDe: seq<int>, i: nat)
    requires Resumo(procs, t, ini, rows, ordem, fimDe)
    requires |rest| == |procs| && i < |procs| && i !in ordem
    requires rest[i] == 1 ==> procs[i].tempoExecucao <= t + 1 - procs[i].tempoChegada
    ensures var ini2 := if ini[i] == 0 then ini[i := t] else ini;
            Resumo(procs, t + 1, ini2, if rest[i] == 1 then rows + [Linha(procs[i], ini2[i], t + 1)] else rows,
                   if rest[i] == 1 then ordem + [i] else ordem, if rest[i] == 1 then fimDe[i := t + 1] else fimDe)
  {
    var ini2 := if ini[i] == 0 then ini[i := t] else ini;
    if rest[i] == 1 {
      ResumoConclui(procs, t, t + 1, ini, rows, ordem, fimDe, i, ini2);
    } else {
      ResumoContinua(procs, t, t + 1, ini, rows, ordem, fimDe, i, ini2);
    }
  }

  lemma ResumoApos(procs: seq<Processo>, t: int, rest: seq<int>, fin: seq<bool>, ini: seq<int>,
                      trace: seq<Intervalo>, donos: seq<nat>, rows: seq<Metrica>, ordem: seq<nat>, fimDe: seq<int>, i: nat)
    requires Estado(procs, t, rest, fin, ini, trace, donos, rows, ordem, fimDe)
    requires MenorPronto(procs, fin, t, MenorPrioridade, i)
    ensures var ini2 := if ini[i] == 0 then ini[i := t] else ini;
            Resumo(procs, t + 1, ini2, if rest[i] == 1 then rows + [Linha(procs[i], ini2[i], t + 1)] else rows,
                   if rest[i] == 1 then ordem + [i] else ordem, if rest[i] == 1 then fimDe[i := t + 1] else fimDe)
  {
    assert i !in ordem;
    ResumoExecuta(procs, t, rest, fin, ini, rows, ordem, fimDe, i);
  }

  /** A unit of work for the process the scan chose keeps the invariant; the
      state after it is the one src/simulador.c:262-293 computes. */
  lemma EstadoExecuta(procs: seq<Processo>, t: int, rest: seq<int>, fin: seq<bool>, ini: seq<int>,
                      trace: seq<Intervalo>, donos: seq<nat>, rows: seq<Metrica>, ordem: seq<nat>, fimDe: seq<int>, i: nat)
    requires Estado(procs, t, rest, fin, ini, trace, donos, rows, ordem, fimDe)
    requires MenorPronto(procs, fin, t, MenorPrioridade, i)
    ensures var ini2 := if ini[i] == 0 then ini[i := t] else ini;
            Estado(procs, t + 1, rest[i := rest[i] - 1], if rest[i] == 1 then fin[i := true] else fin, ini2,
                   trace + [Intervalo(t, t + 1, procs[i].pid, rest[i] - 1)], donos + [i],
                   if rest[i] == 1 then rows + [Linha(procs[i], ini2[i], t + 1)] else rows,
                   if rest[i] == 1 then ordem + [i] else ordem,
                   if rest[i] == 1 then fimDe[i := t + 1] else fimDe)
    ensures 0 <= SomaInt(rest[i := rest[i] - 1]) < SomaInt(rest)
  {
    ContasApos(procs, t, rest, fin, ini, trace, donos, rows, ordem, fimDe, i);
    FormaApos(procs, t, rest, fin, ini, trace, donos, rows, ordem, fimDe, i);
    EscolhasApos(procs, t, rest, fin, ini, trace, donos, rows, ordem, fimDe, i);
    IniciosApos(procs, t, rest, fin, ini, trace, donos, rows, ordem, fimDe, i);
    ResumoApos(procs, t, rest, fin, ini, trace, donos, rows, ordem, fimDe, i);
  }

  /** One pass of the loop of src/simulador.c:242-294 that finds no ready
      process: only the clock moves, and the measure of the loop goes down. */
  lemma PassoOcioso(procs: seq<Processo>, t: int, rest: seq<int>, fin: seq<bool>, ini: seq<int>,
                     trace: seq<Intervalo>, donos: seq<nat>, rows: seq<Metrica>, ordem: seq<nat>, fimDe: seq<int>,
                     t2: int, rest2: seq<int>, fin2: seq<bool>, ini2: seq<int>, trace2: seq<Intervalo>,
                     donos2: seq<nat>, rows2: seq<Metrica>, ordem2: seq<nat>, fimDe2: seq<int>)
    requires Estado(procs, t, rest, fin, ini, trace, donos, rows, ordem, fimDe)
    requires t < MaxChegada(procs)
    requires forall j :: 0 <= j < |procs| && !fin[j] ==> t < procs[j].tempoChegada
    requires t2 == t + 1 && rest2 == rest && fin2 == fin && ini2 == ini && trace2 == trace
    requires donos2 == donos && rows2 == rows && ordem2 == ordem && fimDe2 == fimDe
    ensures Estado(procs, t2, rest2, fin2, ini2, trace2, donos2, rows2, ordem2, fimDe2)
    ensures 0 <= MaxChegada(procs) - t2 < MaxChegada(procs) - t
  {
    EstadoOcioso(procs, t, rest, fin, ini, trace, donos, rows, ordem, fimDe);
  }

  /** One pass of the loop that runs process i, the scan's choice, for a unit:
      the new state is the one src/simulador.c:262-293 computes, and the
      remaining work goes down. */
  lemma PassoExecuta(procs: seq<Processo>, t: int, rest: seq<int>, fin: seq<bool>, ini: seq<int>,
                     trace: seq<Intervalo>, donos: seq<nat>, rows: seq<Metrica>, ordem: seq<nat>, fimDe: seq<int>, i: nat,
                     t2: int, rest2: seq<int>, fin2: seq<bool>, ini2: seq<int>, trace2: seq<Intervalo>,
                     donos2: seq<nat>, rows2: seq<Metrica>, ordem2: seq<nat>, fimDe2: seq<int>)
    requires Estado(procs, t, rest, fin, ini, trace, donos, rows, ordem, fimDe)
    requires MenorPronto(procs, fin, t, MenorPrioridade, i)
    requires t2 == t + 1
    requires ini2 == (if ini[i] == 0 then ini[i := t] else ini)
    requires rest2 == rest[i := rest[i] - 1]
    requires fin2 == (if rest[i] == 1 then fin[i := true] else fin)
    requires trace2 == trace + [Intervalo(t, t + 1, procs[i].pid, rest[i] - 1)]
    requires donos2 == donos + [i]
    requires ordem2 == (if rest[i] == 1 then ordem + [i] else ordem)
    requires fimDe2 == (if rest[i] == 1 then fimDe[i := t + 1] else fimDe)
    requires rows2 == if rest[i] == 1 then rows + [Linha(procs[i], ini2[i], t + 1)] else rows
    ensures Estado(procs, t2, rest2, fin2, ini2, trace2, donos2, rows2, ordem2, fimDe2)
    ensures 0 <= SomaInt(rest2) < SomaInt(rest)
  {
    EstadoExecuta(procs, t, rest, fin, ini, trace, donos, rows, ordem, fimDe, i);
  }

  /** One unit of work for the chosen process (src/simulador.c:262-293): record
      its start if it had none, log the unit, decrement its remaining work and
      advance the clock; if nothing remains, append its summary line, mark it
      finished and count it off. */
  method Executar(procs: seq<Processo>, t: int, restantes: int, tempoRestante: array<int>, finalizado: array<bool>,
                  inicioExecucao: array<int>, trace: seq<Intervalo>, rows: seq<Metrica>, indice: nat)
      returns (t2: int, restantes2: int, trace2: seq<Intervalo>, rows2: seq<Metrica>)
    requires indice < |procs| == tempoRestante.Length == finalizado.Length == inicioExecucao.Length
    requires tempoRestante != inicioExecucao
    modifies tempoRestante, finalizado, inicioExecucao
    ensures var r, f, ini := old(tempoRestante[..]), old(finalizado[..]), old(inicioExecucao[..]);
            && t2 == t + 1
            && inicioExecucao[..] == (if ini[indice] == 0 then ini[indice := t] else ini)
            && tempoRestante[..] == r[indice := r[indice] - 1]
            && finalizado[..] == (if r[indice] == 1 then f[indice := true] else f)
            && restantes2 == (if r[indice] == 1 then restantes - 1 else restantes)
            && trace2 == trace + [Intervalo(t, t + 1, procs[indice].pid, r[indice] - 1)]
            && rows2 == if r[indice] == 1 then rows + [Linha(procs[indice], inicioExecucao[indice], t + 1)] else rows
  {
    if inicioExecucao[indice] == 0 {
      inicioExecucao[indice] := t;
    }
    trace2 := trace + [Intervalo(t, t + 1, procs[indice].pid, tempoRestante[indice] - 1)];
    tempoRestante[indice] := tempoRestante[indice] - 1;
    t2 := t + 1;
    rows2, restantes2 := rows, restantes;
    if tempoRestante[indice] == 0 {
      var fim := t2;
      var turnaround := fim - procs[indice].tempoChegada;
      var espera := turnaround - procs[indice].tempoExecucao;
      rows2 := rows + [Metrica(procs[indice].pid, inicioExecucao[indice], fim, turnaround, espera)];
      finalizado[indice] := true;
      restantes2 := restantes - 1;
    }
  }

  /** Executar together with the bookkeeping of the proof: the trace owners,
      the finishing order and the finish times grow by the same unit, and the
      loop invariant and the counter of unfinished processes are kept. */
  method ExecutarPasso(procs: seq<Processo>, t: int, restantes: int, tempoRestante: array<int>, finalizado: array<bool>,
                       inicioExecucao: array<int>, trace: seq<Intervalo>, ghost donos: seq<nat>, rows: seq<Metrica>,
                       ghost ordem: seq<nat>, ghost fimDe: seq<int>, indice: nat)
      returns (t2: int, restantes2: int, trace2: seq<Intervalo>, ghost donos2: seq<nat>, rows2: seq<Metrica>,
               ghost ordem2: seq<nat>, ghost fimDe2: seq<int>)
    requires tempoRestante != inicioExecucao
    requires restantes == ContaFalsos(finalizado[..]) && |ordem| == |procs| - restantes
    requires Estado(procs, t, tempoRestante[..], finalizado[..], inicioExecucao[..], trace, donos, rows, ordem, fimDe)
    requires MenorPronto(procs, finalizado[..], t, MenorPrioridade, indice)
    modifies tempoRestante, finalizado, inicioExecucao
    ensures restantes2 == ContaFalsos(finalizado[..]) && |ordem2| == |procs| - restantes2
    ensures Estado(procs, t2, tempoRestante[..], finalizado[..], inicioExecucao[..], trace2, donos2, rows2, ordem2, fimDe2)
    ensures 0 <= SomaInt(tempoRestante[..]) < old(SomaInt(tempoRestante[..]))
  {
    ghost var r0, f0, i0 := tempoRestante[..], finalizado[..], inicioExecucao[..];
    ghost var acaba := r0[indice] == 1;
    t2, restantes2, trace2, rows2 := Executar(procs, t, restantes, tempoRestante, finalizado, inicioExecucao, trace, rows, indice);
    donos2 := donos + [indice];
    ordem2 := if acaba then ordem + [indice] else ordem;
    fimDe2 := if acaba then fimDe[indice := t2] else fimDe;
    if acaba {
      ContaFalsosMarca(f0, indice);
    }
    PassoExecuta(procs, t, r0, f0, i0, trace, donos, rows, ordem, fimDe, indice,
                 t2, tempoRestante[..], finalizado[..], inicioExecucao[..], trace2, donos2, rows2, ordem2, fimDe2);
  }

  /** One pass of the loop of src/simulador.c:242-294: scan for the ready
      process of lowest priority; if there is none the clock advances,
      otherwise that process runs for one unit. The invariant is kept and the
      remaining work goes down, or it stays and the clock approaches the latest
      arrival. */
  method Passo(procs: seq<Processo>, t: int, restantes: int, tempoRestante: array<int>, finalizado: array<bool>,
               inicioExecucao: array<int>, trace: seq<Intervalo>, ghost donos: seq<nat>, rows: seq<Metrica>,
               ghost ordem: seq<nat>, ghost fimDe: seq<int>)
      returns (t2: int, restantes2: int, trace2: seq<Intervalo>, ghost donos2: seq<nat>, rows2: seq<Metrica>,
               ghost ordem2: seq<nat>, ghost fimDe2: seq<int>)
    requires forall i :: 0 <= i < |procs| ==> procs[i].prioridade < INT_MAX
    requires tempoRestante != inicioExecucao
    requires restantes > 0
    requires restantes == ContaFalsos(finalizado[..]) && |ordem| == |procs| - restantes
    requires Estado(procs, t, tempoRestante[..], finalizado[..], inicioExecucao[..], trace, donos, rows, ordem, fimDe)
    modifies tempoRestante, finalizado, inicioExecucao
    ensures restantes2 == ContaFalsos(finalizado[..]) && |ordem2| == |procs| - restantes2
    ensures Estado(procs, t2, tempoRestante[..], finalizado[..], inicioExecucao[..], trace2, donos2, rows2, ordem2, fimDe2)
    ensures 0 <= SomaInt(tempoRestante[..])
    ensures || SomaInt(tempoRestante[..]) < old(SomaInt(tempoRestante[..]))
            || (SomaInt(tempoRestante[..]) == old(SomaInt(tempoRestante[..])) &&
                0 <= MaxChegada(procs) - t2 < MaxChegada(procs) - t)
  {
    ghost var r0, f0, i0 := tempoRestante[..], finalizado[..], inicioExecucao[..];
    var indice := EscolherMenor(procs, finalizado[..], t, MenorPrioridade);
    assert tempoRestante[..] == r0 && finalizado[..] == f0 && inicioExecucao[..] == i0;
    if indice == -1 {
      OciosoAntesDaUltimaChegada(procs, f0, t, MenorPrioridade);
      t2, restantes2, trace2, donos2, rows2, ordem2, fimDe2 := t + 1, restantes, trace, donos, rows, ordem, fimDe;
      PassoOcioso(procs, t, r0, f0, i0, trace, donos, rows, ordem, fimDe,
                  t2, tempoRestante[..], finalizado[..], inicioExecucao[..], trace2, donos2, rows2, ordem2, fimDe2);
      SomaIntLimites(r0, procs);
    } else {
      t2, restantes2, trace2, donos2, rows2, ordem2, fimDe2 :=
        ExecutarPasso(procs, t, restantes, tempoRestante, finalizado, inicioExecucao, trace, donos, rows, ordem, fimDe, indice);
    }
  }

  /** The state set up by src/simulador.c:219-239 satisfies the invariant. */
  lemma EstadoInicial(procs: seq<Processo>, rest: seq<int>, fin: seq<bool>, ini: seq<int>)
    requires forall i :: 0 <= i < |procs| ==> procs[i].tempoExecucao > 0
    requires |rest| == |procs| && forall i :: 0 <= i < |procs| ==> rest[i] == procs[i].tempoExecucao
    requires |fin| == |procs| && forall i :: 0 <= i < |procs| ==> !fin[i]
    requires |ini| == |procs| && forall i :: 0 <= i < |procs| ==> ini[i] == 0
    ensures ContaFalsos(fin) == |procs|
    ensures Estado(procs, 0, rest, fin, ini, [], [], [], [], SemFim(procs))
  {
    ContaFalsosNenhum(fin);
    SomaIntExecucoes(rest, procs);
    SomaIntLimites(rest, procs);
    assert Contas(procs, 0, rest, fin, [], 0) by {
      assert fin == Marcados(|procs|, []);
    }
    FormaInicial(procs, rest, fin);
    assert Escolhas(procs, fin, [], [], SemFim(procs));
    ResumoInicial(procs, ini, SemFim(procs));
  }

  /** When every process has finished, the invariant gives what the
      simulation promises. */
  lemma EstadoFinal(procs: seq<Processo>, t: int, rest: seq<int>, fin: seq<bool>, ini: seq<int>,
                    trace: seq<Intervalo>, donos: seq<nat>, rows: seq<Metrica>, ordem: seq<nat>, fimDe: seq<int>)
    requires Estado(procs, t, rest, fin, ini, trace, donos, rows, ordem, fimDe)
    requires ContaFalsos(fin) == 0 && |ordem| == |procs|
    ensures |rows| == |procs| && Permutacao(ordem, |procs|) && |fimDe| == |procs|
    ensures |trace| == SomaExecucao(procs)
    ensures TraceCoerente(procs, trace, donos)
    ensures forall m :: 0 <= m < |trace| ==> PassoPrioridade(procs, fimDe, trace, donos, m)
    ensures OciosidadeJustificada(procs, fimDe, trace)
    ensures forall i :: 0 <= i < |procs| ==> Servido(trace, donos, i) == procs[i].tempoExecucao
    ensures forall m :: 0 <= m < |trace| && trace[m].restante == 0 ==> fimDe[donos[m]] == trace[m].fim
    ensures forall k :: 0 <= k < |rows| ==>
              Concluido(procs[ordem[k]], rows[k]) && rows[k].fim == fimDe[ordem[k]] &&
              rows[k].inicio == InicioRegistrado(trace, donos, ordem[k])
    ensures forall k, l :: 0 <= k < l < |rows| ==> rows[k].fim < rows[l].fim
  {
    ContaFalsosZero(fin);
    SomaIntLimites(rest, procs);
    ResumoCrescente(procs, t, ini, rows, ordem, fimDe);
  }

  // ---------------------------------------------------------------------
  // The simulation
  // ---------------------------------------------------------------------

  /** The main loop of src/simulador.c:242-294, from the initial state:
      one decision per pass until every process has finished. */
  method Repetir(procs: seq<Processo>, processosRestantes: int,
                 tempoRestante: array<int>, finalizado: array<bool>, inicioExecucao: array<int>)
      returns (tempoAtual: int, trace: seq<Intervalo>, ghost donos: seq<nat>, rows: seq<Metrica>,
               ghost ordem: seq<nat>, ghost fimDe: seq<int>)
    requires forall i :: 0 <= i < |procs| ==> procs[i].prioridade < INT_MAX
    requires tempoRestante != inicioExecucao
    requires processosRestantes == ContaFalsos(finalizado[..]) == |procs|
    requires Estado(procs, 0, tempoRestante[..], finalizado[..], inicioExecucao[..], [], [], [], [], SemFim(procs))
    modifies tempoRestante, finalizado, inicioExecucao
    ensures ContaFalsos(finalizado[..]) == 0 && |ordem| == |procs|
    ensures Estado(procs, tempoAtual, tempoRestante[..], finalizado[..], inicioExecucao[..],
                   trace, donos, rows, ordem, fimDe)
  {
    var restantes := processosRestantes;
    tempoAtual := 0;
    rows, trace, ordem, donos, fimDe := [], [], [], [], SemFim(procs);
    while restantes > 0
      invariant restantes == ContaFalsos(finalizado[..]) && |ordem| == |procs| - restantes
      invariant Estado(procs, tempoAtual, tempoRestante[..], finalizado[..], inicioExecucao[..],
                       trace, donos, rows, ordem, fimDe)
      decreases SomaInt(tempoRestante[..]), MaxChegada(procs) - tempoAtual
    {
      tempoAtual, restantes, trace, donos, rows, ordem, fimDe :=
        Passo(procs, tempoAtual, restantes, tempoRestante, finalizado, inicioExecucao,
              trace, donos, rows, ordem, fimDe);
    }
  }

  /** simular_prioridade. The trace lists every unit of work; rows[k] is the
      summary line of process ordem[k], printed when it finished; fimDe[i] is
      the time process i finished. A burst of 0 or less would never bring the
      remaining work to exactly 0, and a priority of INT_MAX would never be
      picked by the scan, whose running minimum starts there: the C loop would
      then not end. */
  method SimularPrioridade(procs: seq<Processo>)
      returns (rows: seq<Metrica>, trace: seq<Intervalo>, ghost ordem: seq<nat>, ghost donos: seq<nat>,
               ghost fimDe: seq<int>)
    requires forall i :: 0 <= i < |procs| ==> procs[i].tempoExecucao > 0 && procs[i].prioridade < INT_MAX
    ensures |rows| == |procs| && Permutacao(ordem, |procs|) && |fimDe| == |procs|
    ensures |trace| == SomaExecucao(procs)
    ensures TraceCoerente(procs, trace, donos)
    ensures forall m :: 0 <= m < |trace| ==> PassoPrioridade(procs, fimDe, trace, donos, m)
    ensures OciosidadeJustificada(procs, fimDe, trace)
    ensures forall i :: 0 <= i < |procs| ==> Servido(trace, donos, i) == procs[i].tempoExecucao
    ensures forall m :: 0 <= m < |trace| && trace[m].restante == 0 ==> fimDe[donos[m]] == trace[m].fim
    ensures forall k :: 0 <= k < |rows| ==>
              Concluido(procs[ordem[k]], rows[k]) && rows[k].fim == fimDe[ordem[k]] &&
              rows[k].inicio == InicioRegistrado(trace, donos, ordem[k])
    ensures forall k, l :: 0 <= k < l < |rows| ==> rows[k].fim < rows[l].fim
  {
    var n := |procs|;
    var tempoAtual: int;
    var tempoRestante := new int[n];
    for i := 0 to n
      invariant forall j :: 0 <= j < i ==> tempoRestante[j] == procs[j].tempoExecucao
    {
      tempoRestante[i] := procs[i].tempoExecucao;
    }
    var finalizado := new bool[n](_ => false);
    var processosRestantes := n;
    var inicioExecucao := new int[n](_ => 0);
    EstadoInicial(procs, tempoRestante[..], finalizado[..], inicioExecucao[..]);
    tempoAtual, trace, donos, rows, ordem, fimDe :=
      Repetir(procs, processosRestantes, tempoRestante, finalizado, inicioExecucao);
    EstadoFinal(procs, tempoAtual, tempoRestante[..], finalizado[..], inicioExecucao[..],
                trace, donos, rows, ordem, fimDe);
  }
}
