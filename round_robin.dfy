/**
 * simular_round_robin (src/simulador.c:117-216): round-robin scheduling with
 * a quantum of 2. Every pass of the outer loop visits the processes in list
 * order; each one that has arrived and has work left runs for the quantum or
 * for what it has left, whichever is less, and the clock advances by that
 * slice, so a process later in the same pass sees the advanced clock. A pass
 * in which nobody ran advances the clock by one unit.
 *
 * A trace entry Intervalo(s, f, pid, r) is the line "Tempo s-f: PID pid
 * (restante: r)" of the C output.
 */
module RoundRobin {
  import opened Processos
  import opened Escalonamento

  /** The fixed time slice (src/simulador.c:118). */
  const QUANTUM: int := 2

  const CABECALHO_RR: string := "Simulação Round-Robin (Q=2):\n"
  const CABECALHO_PASSOS: string := "Execução passo a passo:\n"

  /** Length of the next slice of a process with `resto` units left
      (src/simulador.c:161): the quantum, or what is left when that is less. */
  function Duracao(resto: int, q: int): (r: int)
    ensures r <= q && r <= resto && (r == q || r == resto)
  {
    if resto < q then resto else q
  }

  /** Index j lies strictly after d and strictly before e in the cyclic order
      d + 1, d + 2, ..., n - 1, 0, 1, ... of a pass; when e == d that is every
      index other than d. */
  predicate EntreCiclico(d: int, e: int, j: int)
  {
    if d < e then d < j < e else d < j || j < e
  }

  // ---------------------------------------------------------------------
  // What a round-robin trace looks like
  // ---------------------------------------------------------------------

  /** Entry m is one slice: it lasts the quantum, or less when it leaves the
      process with nothing to do, and its process was ready when it began
      (arrived, and not finished by then; fimDe[j] is j's finish time). */
  ghost predicate FatiaRR(procs: seq<Processo>, q: int, fimDe: seq<int>, trace: seq<Intervalo>, donos: seq<nat>, m: nat)
    requires m < |trace| == |donos|
  {
    && 1 <= trace[m].fim - trace[m].inicio <= q
    && 0 <= trace[m].restante
    && (trace[m].fim - trace[m].inicio < q ==> trace[m].restante == 0)
    && Pronto(procs, Terminados(fimDe, trace[m].inicio), trace[m].inicio, donos[m])
  }

  /** Entry m went to the next ready process in turn. After the slice of
      process d ends at time tau, the scan goes on from d + 1 at the same
      clock, wrapping around to the start of the list: if the next slice
      starts at tau, every process passed over in that cyclic order was not
      ready at tau. If the CPU stood idle until s, the pass that found e at
      s passed over every process before e, none of them ready at s. The
      first entry is found by a pass from the start of the list. */
  ghost predicate Vez(procs: seq<Processo>, fimDe: seq<int>, trace: seq<Intervalo>, donos: seq<nat>, m: nat)
    requires m < |trace| == |donos|
  {
    if m == 0 then
      forall j :: 0 <= j < donos[0] ==> !Pronto(procs, Terminados(fimDe, trace[0].inicio), trace[0].inicio, j)
    else
      var tau, s := trace[m - 1].fim, trace[m].inicio;
      && (s == tau ==>
            forall j :: 0 <= j < |procs| && EntreCiclico(donos[m - 1], donos[m], j) ==>
              !Pronto(procs, Terminados(fimDe, tau), tau, j))
      && (tau < s ==>
            forall j :: 0 <= j < donos[m] ==> !Pronto(procs, Terminados(fimDe, s), s, j))
  }

  /** One decision of the round-robin scheduler, as entry m records it. */
  ghost predicate PassoRR(procs: seq<Processo>, q: int, fimDe: seq<int>, trace: seq<Intervalo>, donos: seq<nat>, m: nat)
    requires m < |trace| == |donos|
  {
    FatiaRR(procs, q, fimDe, trace, donos, m) && Vez(procs, fimDe, trace, donos, m)
  }

  // ---------------------------------------------------------------------
  // The loop invariant
  // ---------------------------------------------------------------------

  /** The counters of the loop: the clock, the remaining work and the flags.
      The clock idled only up to the latest arrival and otherwise advanced by
      the work done; a process is finished exactly when nothing remains; what
      a process has run fits between its arrival and the clock. A finished
      process appears in the finishing order `ordem` at position pos[i];
      pos[i] is negative while it is unfinished. */
  ghost predicate Contas(procs: seq<Processo>, t: int, rest: seq<int>, fin: seq<bool>, ordem: seq<nat>, pos: seq<int>)
  {
    && |rest| == |procs| && |fin| == |procs|
    && 0 <= t <= MaxChegada(procs) + SomaExecucao(procs) - SomaInt(rest)
    && (forall i :: 0 <= i < |procs| ==> 0 <= rest[i] <= procs[i].tempoExecucao)
    && (forall i :: 0 <= i < |procs| ==> (fin[i] <==> rest[i] == 0))
    && (forall i :: 0 <= i < |procs| ==>
          rest[i] == procs[i].tempoExecucao || procs[i].tempoExecucao - rest[i] <= t - procs[i].tempoChegada)
    && |pos| == |procs|
    && (forall k :: 0 <= k < |ordem| ==> ordem[k] < |procs| && pos[ordem[k]] == k)
    && (forall i :: 0 <= i < |procs| ==>
          if fin[i] then 0 <= pos[i] < |ordem| && ordem[pos[i]] == i else pos[i] < 0)
  }

  /** The decisions recorded in the trace, judged with the finish times
      `fimDe`: a finished process finished by the end of the trace, at the
      end of its entry with nothing left; an unfinished one has Horizonte;
      every entry is a slice given in turn, and every idle gap was forced. */
  ghost predicate Escolhas(procs: seq<Processo>, q: int, fin: seq<bool>, trace: seq<Intervalo>, donos: seq<nat>, fimDe: seq<int>)
  {
    && |fin| == |procs| && |fimDe| == |procs| && |trace| == |donos|
    && (forall m :: 0 <= m < |trace| ==> PassoRR(procs, q, fimDe, trace, donos, m))
    && OciosidadeJustificada(procs, fimDe, trace)
    && (forall i :: 0 <= i < |procs| && fin[i] ==> fimDe[i] <= LivreTrace(trace, |trace|))
    && (forall i :: 0 <= i < |procs| && !fin[i] ==> fimDe[i] == Horizonte(procs))
    && (forall m :: 0 <= m < |trace| && donos[m] < |procs| && trace[m].restante == 0 ==> fimDe[donos[m]] == trace[m].fim)
  }

  /** Everything the outer loop of simular_round_robin keeps. */
  ghost predicate Estado(procs: seq<Processo>, q: int, t: int, rest: seq<int>, fin: seq<bool>, ini: seq<int>,
                         trace: seq<Intervalo>, donos: seq<nat>, rows: seq<Metrica>, ordem: seq<nat>, pos: seq<int>,
                         fimDe: seq<int>)
  {
    && Contas(procs, t, rest, fin, ordem, pos)
    && Forma(procs, t, rest, fin, trace, donos)
    && Escolhas(procs, q, fin, trace, donos, fimDe)
    && Inicios(procs, ini, trace, donos)
    && Resumo(procs, t, ini, rows, ordem, fimDe)
  }

  /** Where a pass stands before it visits process i: if some process ran in
      this pass, the last entry is the latest slice, ending at the clock,
      and every process visited after it was not ready. If none ran yet,
      every process visited so far was not ready at the clock, and if the
      pass began right where the last slice ended, neither was any process
      the previous pass visited after that slice. */
  ghost predicate Varredura(procs: seq<Processo>, t: int, fin: seq<bool>, trace: seq<Intervalo>, donos: seq<nat>,
                            i: nat, exec: bool)
  {
    && i <= |procs| && |trace| == |donos|
    && (exec ==>
          && |trace| > 0 && donos[|trace| - 1] < i && LivreTrace(trace, |trace|) == t
          && forall j :: donos[|trace| - 1] < j < i ==> !Pronto(procs, fin, t, j))
    && (!exec ==>
          && (|trace| > 0 && LivreTrace(trace, |trace|) == t ==>
                forall j :: donos[|trace| - 1] < j < |procs| ==> !Pronto(procs, fin, t, j))
          && forall j :: 0 <= j < i ==> !Pronto(procs, fin, t, j))
  }

  /** The test of src/simulador.c:150 is readiness: work left means not
      finished. */
  lemma ProntoSeRestante(procs: seq<Processo>, t: int, rest: seq<int>, fin: seq<bool>, ordem: seq<nat>, pos: seq<int>,
                         i: nat)
    requires Contas(procs, t, rest, fin, ordem, pos) && i < |procs|
    ensures Pronto(procs, fin, t, i) <==> rest[i] > 0 && procs[i].tempoChegada <= t
  {
  }

  // ---------------------------------------------------------------------
  // Visiting a process that is not ready, and the end of a pass
  // ---------------------------------------------------------------------

  lemma VarreduraPula(procs: seq<Processo>, t: int, fin: seq<bool>, trace: seq<Intervalo>, donos: seq<nat>,
                      i: nat, exec: bool)
    requires Varredura(procs, t, fin, trace, donos, i, exec) && i < |procs|
    requires !Pronto(procs, fin, t, i)
    ensures Varredura(procs, t, fin, trace, donos, i + 1, exec)
  {
  }

  /** After a pass in which some process ran, the next pass starts at the
      same clock. */
  lemma VarreduraNovaVolta(procs: seq<Processo>, t: int, fin: seq<bool>, trace: seq<Intervalo>, donos: seq<nat>)
    requires Varredura(procs, t, fin, trace, donos, |procs|, true)
    ensures Varredura(procs, t, fin, trace, donos, 0, false)
  {
  }

  /** One idle unit keeps the counters while the clock is below the latest
      arrival. */
  lemma ContasOciosas(procs: seq<Processo>, t: int, rest: seq<int>, fin: seq<bool>, ordem: seq<nat>, pos: seq<int>)
    requires (Contas(procs, t, rest, fin, ordem, pos) == true) && t < MaxChegada(procs)
    ensures Contas(procs, t + 1, rest, fin, ordem, pos) == true
  {
    SomaIntLimites(rest, procs);
  }

  /** One idle unit keeps the shape of the trace when every unfinished
      process arrives later. */
  lemma FormaOciosa(procs: seq<Processo>, t: int, rest: seq<int>, fin: seq<bool>, trace: seq<Intervalo>,
                    donos: seq<nat>)
    requires (Forma(procs, t, rest, fin, trace, donos) == true) && t < MaxChegada(procs) && 0 <= SomaExecucao(procs)
    requires forall j :: 0 <= j < |procs| && !fin[j] ==> t < procs[j].tempoChegada
    ensures Forma(procs, t + 1, rest, fin, trace, donos) == true
  {
  }

  /** A pass in which nobody ran, on the loop's variables: some process is
      unfinished, so none had arrived, and the clock is below the latest
      arrival. One idle unit keeps the invariant and starts a fresh pass
      (src/simulador.c:203-205). */
  lemma Ocioso(procs: seq<Processo>, q: int, t: int, rest: seq<int>, fin: seq<bool>, ini: seq<int>,
               trace: seq<Intervalo>, donos: seq<nat>, rows: seq<Metrica>, ordem: seq<nat>, pos: seq<int>,
               fimDe: seq<int>)
    requires Estado(procs, q, t, rest, fin, ini, trace, donos, rows, ordem, pos, fimDe) == true
    requires Varredura(procs, t, fin, trace, donos, |procs|, false) == true
    requires ContaFalsos(fin) > 0
    ensures t < MaxChegada(procs)
    ensures Estado(procs, q, t + 1, rest, fin, ini, trace, donos, rows, ordem, pos, fimDe) == true
    ensures Varredura(procs, t + 1, fin, trace, donos, 0, false) == true
  {
    ContaFalsosZero(fin);
    var j :| 0 <= j < |fin| && !fin[j];
    assert !Pronto(procs, fin, t, j);
    forall k | 0 <= k < |procs| && !fin[k]
      ensures t < procs[k].tempoChegada
    {
      assert !Pronto(procs, fin, t, k);
    }
    SomaIntLimites(rest, procs);
    ContasOciosas(procs, t, rest, fin, ordem, pos);
    FormaOciosa(procs, t, rest, fin, trace, donos);
    ResumoOcioso(procs, t, ini, rows, ordem, fimDe);
  }

  /** The same for the simulation state. */
  lemma EstadoOcioso(procs: seq<Processo>, q: int, s: Situacao, u: Situacao)
    requires Dimensoes(procs, s) && (Invariante(procs, q, s) == true)
    requires (VarreduraDe(procs, s, |procs|, false) == true) && s.restantes > 0
    requires u == s.(t := s.t + 1)
    ensures s.t < MaxChegada(procs)
    ensures (Invariante(procs, q, u) == true) && (VarreduraDe(procs, u, 0, false) == true)
  {
    Ocioso(procs, q, s.t, s.rest, s.fin, s.ini, s.trace, s.donos, s.rows, s.ordem, s.pos, s.fimDe);
  }

  // ---------------------------------------------------------------------
  // One slice of process i from clock t (src/simulador.c:150-199)
  // ---------------------------------------------------------------------

  /** The counters after d units of the ready process i: the remaining
      work goes down by d, and the process is flagged and appended to the
      finishing order exactly when nothing is left. */
  lemma ContasAvanca(procs: seq<Processo>, t: int, d: int, rest: seq<int>, fin: seq<bool>, ordem: seq<nat>,
                     pos: seq<int>, i: nat, t2: int, rest2: seq<int>, fin2: seq<bool>, ordem2: seq<nat>, pos2: seq<int>)
    requires Contas(procs, t, rest, fin, ordem, pos) && Pronto(procs, fin, t, i) && 0 < d <= rest[i]
    requires t2 == t + d && rest2 == rest[i := rest[i] - d]
    requires fin2 == (if rest[i] == d then fin[i := true] else fin)
    requires ordem2 == (if rest[i] == d then ordem + [i] else ordem)
    requires pos2 == (if rest[i] == d then pos[i := |ordem|] else pos)
    ensures Contas(procs, t2, rest2, fin2, ordem2, pos2)
    ensures 0 <= SomaInt(rest2) < SomaInt(rest) && t2 < Horizonte(procs)
  {
    RestoDiminui(procs, rest, i, d);
    if rest[i] == d {
      forall k | 0 <= k < |ordem2|
        ensures ordem2[k] < |procs| && pos2[ordem2[k]] == k
      {
        if k < |ordem| {
          assert ordem2[k] == ordem[k] && ordem[k] != i;
        }
      }
    }
  }

  /** An unfinished process is not in the finishing order. */
  lemma ForaDaOrdem(procs: seq<Processo>, t: int, rest: seq<int>, fin: seq<bool>, ordem: seq<nat>, pos: seq<int>,
                    i: nat)
    requires Contas(procs, t, rest, fin, ordem, pos) && i < |procs| && !fin[i]
    ensures i !in ordem
  {
    forall k | 0 <= k < |ordem|
      ensures ordem[k] != i
    {
      assert pos[ordem[k]] == k;
    }
  }

  /** The same for a slice of the simulation state. */
  lemma ContasFatia(procs: seq<Processo>, q: int, s: Situacao, i: nat)
    requires 0 < q && i < |procs| && Dimensoes(procs, s)
    requires Contas(procs, s.t, s.rest, s.fin, s.ordem, s.pos) && Pronto(procs, s.fin, s.t, i)
    ensures var r := Fatiar(procs, q, s, i);
            && Contas(procs, r.t, r.rest, r.fin, r.ordem, r.pos)
            && 0 <= SomaInt(r.rest) < SomaInt(s.rest) && r.t < Horizonte(procs)
  {
    var r := Fatiar(procs, q, s, i);
    var d := Duracao(s.rest[i], q);
    var e := Intervalo(s.t, s.t + d, procs[i].pid, s.rest[i] - d);
    FatiarPronto(procs, q, s, i, d, e);
    ContasAvanca(procs, s.t, d, s.rest, s.fin, s.ordem, s.pos, i, r.t, r.rest, r.fin, r.ordem, r.pos);
  }

  /** Finish times that move only for process i, and only past the clock. */
  predicate FimAdiante(fimDe: seq<int>, fimDe2: seq<int>, i: nat, t: int)
  {
    && |fimDe2| == |fimDe| && i < |fimDe|
    && t < fimDe[i] && t < fimDe2[i]
    && forall j :: 0 <= j < |fimDe| && j != i ==> fimDe2[j] == fimDe[j]
  }

  /** Such a change is invisible at every time up to the clock. */
  lemma TerminadosAntes(fimDe: seq<int>, fimDe2: seq<int>, i: nat, t: int, u: int)
    requires FimAdiante(fimDe, fimDe2, i, t) && u <= t
    ensures Terminados(fimDe2, u) == Terminados(fimDe, u)
  {
  }

  /** At the clock, the finished processes are exactly those flagged. */
  lemma TerminadosAgora(procs: seq<Processo>, t: int, fin: seq<bool>, trace: seq<Intervalo>,
                        fimDe: seq<int>, fimDe2: seq<int>, i: nat)
    requires |fin| == |procs| == |fimDe| && FimAdiante(fimDe, fimDe2, i, t) && !fin[i]
    requires LivreTrace(trace, |trace|) <= t < Horizonte(procs)
    requires forall j :: 0 <= j < |procs| && fin[j] ==> fimDe[j] <= LivreTrace(trace, |trace|)
    requires forall j :: 0 <= j < |procs| && !fin[j] ==> fimDe[j] == Horizonte(procs)
    ensures Terminados(fimDe2, t) == fin
  {
  }

  /** The earlier entries keep their meaning once process i's finish time moves. */
  lemma PassoRRPreserva(procs: seq<Processo>, q: int, fimDe: seq<int>, fimDe2: seq<int>,
                        trace: seq<Intervalo>, donos: seq<nat>, e: Intervalo, i: nat, t: int, m: nat)
    requires m < |trace| == |donos| && PassoRR(procs, q, fimDe, trace, donos, m)
    requires FimAdiante(fimDe, fimDe2, i, t)
    requires trace[m].inicio < trace[m].fim <= t && (0 < m ==> trace[m - 1].fim <= t)
    ensures PassoRR(procs, q, fimDe2, trace + [e], donos + [i], m)
  {
    var trace2, donos2 := trace + [e], donos + [i];
    assert trace2[m] == trace[m] && donos2[m] == donos[m];
    TerminadosAntes(fimDe, fimDe2, i, t, trace[m].inicio);
    if 0 < m {
      assert trace2[m - 1] == trace[m - 1] && donos2[m - 1] == donos[m - 1];
      TerminadosAntes(fimDe, fimDe2, i, t, trace[m - 1].fim);
    }
  }

  lemma PassosAntigos(procs: seq<Processo>, q: int, fimDe: seq<int>, fimDe2: seq<int>,
                      trace: seq<Intervalo>, donos: seq<nat>, e: Intervalo, i: nat, t: int,
                      trace2: seq<Intervalo>, donos2: seq<nat>)
    requires |trace| == |donos| && trace2 == trace + [e] && donos2 == donos + [i]
    requires forall m :: 0 <= m < |trace| ==> PassoRR(procs, q, fimDe, trace, donos, m)
    requires FimAdiante(fimDe, fimDe2, i, t)
    requires forall m :: 0 <= m < |trace| ==> trace[m].inicio < trace[m].fim <= t
    ensures forall m :: 0 <= m < |trace| ==> PassoRR(procs, q, fimDe2, trace2, donos2, m)
  {
    forall m | 0 <= m < |trace|
      ensures PassoRR(procs, q, fimDe2, trace2, donos2, m)
    {
      PassoRRPreserva(procs, q, fimDe, fimDe2, trace, donos, e, i, t, m);
    }
  }

  /** The new slice is a round-robin decision: the scan reached process i
      through processes that were not ready. */
  lemma PassoNovo(procs: seq<Processo>, q: int, t: int, d: int, rest: seq<int>, fin: seq<bool>,
                  trace: seq<Intervalo>, donos: seq<nat>, fimDe2: seq<int>, i: nat, exec: bool,
                  e: Intervalo, trace2: seq<Intervalo>, donos2: seq<nat>)
    requires Varredura(procs, t, fin, trace, donos, i, exec) == true
    requires Pronto(procs, fin, t, i) && |rest| == |procs| && 0 < rest[i]
    requires Terminados(fimDe2, t) == fin && LivreTrace(trace, |trace|) <= t
    requires 0 < q && d == Duracao(rest[i], q) && e == Intervalo(t, t + d, procs[i].pid, rest[i] - d)
    requires trace2 == trace + [e] && donos2 == donos + [i]
    ensures PassoRR(procs, q, fimDe2, trace2, donos2, |trace|)
  {
    var m := |trace|;
    assert trace2[m] == e && donos2[m] == i;
    if 0 < m {
      assert trace2[m - 1] == trace[m - 1] && donos2[m - 1] == donos[m - 1];
    }
  }

  lemma OciosidadeFatia(procs: seq<Processo>, t: int, fin: seq<bool>, trace: seq<Intervalo>,
                        fimDe: seq<int>, fimDe2: seq<int>, i: nat, e: Intervalo, trace2: seq<Intervalo>)
    requires |fimDe| == |procs| && |fin| == |procs| && 0 <= t
    requires OciosidadeJustificada(procs, fimDe, trace)
    requires FimAdiante(fimDe, fimDe2, i, t) && !fin[i] && e.inicio == t && trace2 == trace + [e]
    requires forall m :: 0 <= m < |trace| ==> trace[m].fim <= t
    requires forall j :: 0 <= j < |procs| && fin[j] ==> fimDe[j] <= LivreTrace(trace, |trace|)
    requires LivreTrace(trace, |trace|) < t ==>
               forall j :: 0 <= j < |procs| && !fin[j] ==> t <= procs[j].tempoChegada
    ensures OciosidadeJustificada(procs, fimDe2, trace2)
  {
    forall m, j | 0 <= m < |trace2| && 0 <= j < |procs|
      ensures EsperaForcada(procs, fimDe2, trace2, m, j)
    {
      if m < |trace| {
        assert trace2[m] == trace[m] && LivreTrace(trace2, m) == LivreTrace(trace, m);
        assert EsperaForcada(procs, fimDe, trace, m, j);
        if j == i {
          assert LivreTrace(trace, m) <= t by {
            if 0 < m { assert trace[m - 1].fim <= t; }
          }
        } else {
          assert fimDe2[j] == fimDe[j];
        }
      } else {
        assert trace2[m] == e && LivreTrace(trace2, m) == LivreTrace(trace, |trace|);
        if LivreTrace(trace, |trace|) < t && fin[j] {
          assert j != i && fimDe2[j] == fimDe[j];
        }
      }
    }
  }

  /** The finish times after d units of the ready process i: a finished
      process finished by the end of the trace, at the end of its entry with
      nothing left, and every other process keeps Horizonte. */
  lemma FinsAvanca(procs: seq<Processo>, t: int, d: int, rest: seq<int>, fin: seq<bool>, trace: seq<Intervalo>,
                   donos: seq<nat>, fimDe: seq<int>, i: nat, e: Intervalo, fin2: seq<bool>,
                   trace2: seq<Intervalo>, donos2: seq<nat>, fimDe2: seq<int>)
    requires i < |procs| && |rest| == |procs| && |fin| == |procs| && |fimDe| == |procs| && |trace| == |donos|
    requires 0 <= t && 0 < d <= rest[i] && (fin[i] <==> rest[i] == 0) && t + d < Horizonte(procs)
    requires e == Intervalo(t, t + d, procs[i].pid, rest[i] - d) && trace2 == trace + [e] && donos2 == donos + [i]
    requires fin2 == (if rest[i] == d then fin[i := true] else fin)
    requires fimDe2 == (if rest[i] == d then fimDe[i := t + d] else fimDe)
    requires forall m :: 0 <= m < |trace| ==> trace[m].fim <= t
    requires forall j :: 0 <= j < |procs| && fin[j] ==> fimDe[j] <= LivreTrace(trace, |trace|)
    requires forall j :: 0 <= j < |procs| && !fin[j] ==> fimDe[j] == Horizonte(procs)
    requires forall m :: 0 <= m < |trace| && donos[m] < |procs| && trace[m].restante == 0 ==>
               fimDe[donos[m]] == trace[m].fim
    ensures forall j :: 0 <= j < |procs| && fin2[j] ==> fimDe2[j] <= LivreTrace(trace2, |trace2|)
    ensures forall j :: 0 <= j < |procs| && !fin2[j] ==> fimDe2[j] == Horizonte(procs)
    ensures forall m :: 0 <= m < |trace2| && donos2[m] < |procs| && trace2[m].restante == 0 ==>
              fimDe2[donos2[m]] == trace2[m].fim
  {
    assert LivreTrace(trace2, |trace2|) == t + d;
    assert LivreTrace(trace, |trace|) <= t by {
      if 0 < |trace| { assert trace[|trace| - 1].fim <= t; }
    }
    forall m | 0 <= m < |trace2| && donos2[m] < |procs| && trace2[m].restante == 0
      ensures fimDe2[donos2[m]] == trace2[m].fim
    {
      if m < |trace| {
        assert trace2[m] == trace[m] && donos2[m] == donos[m];
      }
    }
  }

  /** The decisions after d units of the ready process i: the earlier
      entries keep their meaning, the new one is a round-robin decision, and
      no idle gap was added. */
  lemma EscolhasAvanca(procs: seq<Processo>, q: int, t: int, d: int, rest: seq<int>, fin: seq<bool>,
                       trace: seq<Intervalo>, donos: seq<nat>, fimDe: seq<int>, i: nat, exec: bool, e: Intervalo,
                       fin2: seq<bool>, trace2: seq<Intervalo>, donos2: seq<nat>, fimDe2: seq<int>)
    requires 0 < q && i < |procs| && |fimDe| == |procs|
    requires Escolhas(procs, q, fin, trace, donos, fimDe)
    requires |rest| == |procs| && 0 <= t && t + d < Horizonte(procs)
    requires forall m :: 0 <= m < |trace| ==> trace[m].inicio < trace[m].fim <= t
    requires LivreTrace(trace, |trace|) < t ==> forall j :: 0 <= j < |procs| && !fin[j] ==> t <= procs[j].tempoChegada
    requires Varredura(procs, t, fin, trace, donos, i, exec) == true
    requires Pronto(procs, fin, t, i) && 0 < rest[i] && (fin[i] <==> rest[i] == 0)
    requires d == Duracao(rest[i], q) && e == Intervalo(t, t + d, procs[i].pid, rest[i] - d)
    requires trace2 == trace + [e] && donos2 == donos + [i]
    requires fin2 == (if rest[i] == d then fin[i := true] else fin)
    requires fimDe2 == (if rest[i] == d then fimDe[i := t + d] else fimDe)
    ensures Escolhas(procs, q, fin2, trace2, donos2, fimDe2) == true
  {
    assert FimAdiante(fimDe, fimDe2, i, t);
    TerminadosAgora(procs, t, fin, trace, fimDe, fimDe2, i);
    PassosAntigos(procs, q, fimDe, fimDe2, trace, donos, e, i, t, trace2, donos2);
    PassoNovo(procs, q, t, d, rest, fin, trace, donos, fimDe2, i, exec, e, trace2, donos2);
    OciosidadeFatia(procs, t, fin, trace, fimDe, fimDe2, i, e, trace2);
    FinsAvanca(procs, t, d, rest, fin, trace, donos, fimDe, i, e, fin2, trace2, donos2, fimDe2);
  }

  /** The same for a slice of the simulation state. */
  lemma EscolhasFatia(procs: seq<Processo>, q: int, s: Situacao, i: nat, exec: bool)
    requires 0 < q && i < |procs| && Dimensoes(procs, s)
    requires Escolhas(procs, q, s.fin, s.trace, s.donos, s.fimDe)
    requires Forma(procs, s.t, s.rest, s.fin, s.trace, s.donos) && 0 <= s.t
    requires Fatiar(procs, q, s, i).t < Horizonte(procs)
    requires Varredura(procs, s.t, s.fin, s.trace, s.donos, i, exec)
    requires Pronto(procs, s.fin, s.t, i) && 0 < s.rest[i] && (s.fin[i] <==> s.rest[i] == 0)
    ensures var r := Fatiar(procs, q, s, i); Escolhas(procs, q, r.fin, r.trace, r.donos, r.fimDe)
  {
    var r := Fatiar(procs, q, s, i);
    var d := Duracao(s.rest[i], q);
    var e := Intervalo(s.t, s.t + d, procs[i].pid, s.rest[i] - d);
    FatiarPronto(procs, q, s, i, d, e);
    EscolhasAvanca(procs, q, s.t, d, s.rest, s.fin, s.trace, s.donos, s.fimDe, i, exec, e,
                   r.fin, r.trace, r.donos, r.fimDe);
  }

  /** The shape of the trace after a slice. */
  lemma FormaFatia(procs: seq<Processo>, q: int, s: Situacao, i: nat)
    requires 0 < q && i < |procs| && Dimensoes(procs, s) && 0 <= s.t
    requires Forma(procs, s.t, s.rest, s.fin, s.trace, s.donos)
    requires Pronto(procs, s.fin, s.t, i) && 0 < s.rest[i]
    requires Fatiar(procs, q, s, i).t < Horizonte(procs)
    ensures var r := Fatiar(procs, q, s, i); Forma(procs, r.t, r.rest, r.fin, r.trace, r.donos)
  {
    var r := Fatiar(procs, q, s, i);
    var d := Duracao(s.rest[i], q);
    var e := Intervalo(s.t, s.t + d, procs[i].pid, s.rest[i] - d);
    FatiarPronto(procs, q, s, i, d, e);
    FormaExtende(procs, s.t, d, s.rest, s.fin, s.trace, s.donos, i, r.rest, r.fin, r.t, e, r.trace, r.donos);
  }

  /** The recorded starts after a slice. */
  lemma IniciosFatia(procs: seq<Processo>, q: int, s: Situacao, i: nat)
    requires 0 < q && i < |procs| && Dimensoes(procs, s)
    requires Inicios(procs, s.ini, s.trace, s.donos) && Pronto(procs, s.fin, s.t, i)
    ensures var r := Fatiar(procs, q, s, i); Inicios(procs, r.ini, r.trace, r.donos)
  {
    var r := Fatiar(procs, q, s, i);
    var d := Duracao(s.rest[i], q);
    var e := Intervalo(s.t, s.t + d, procs[i].pid, s.rest[i] - d);
    FatiarPronto(procs, q, s, i, d, e);
    IniciosExtende(procs, s.ini, s.trace, s.donos, e, i, r.ini);
    assert r.trace == s.trace + [e];
  }

  /** The summary table after a slice: a line is appended exactly when the
      slice finishes the process. */
  lemma ResumoFatia(procs: seq<Processo>, q: int, s: Situacao, i: nat)
    requires 0 < q && i < |procs| && Dimensoes(procs, s)
    requires Resumo(procs, s.t, s.ini, s.rows, s.ordem, s.fimDe) && Pronto(procs, s.fin, s.t, i)
    requires i !in s.ordem && 0 < s.rest[i]
    requires s.rest[i] <= q ==> procs[i].tempoExecucao <= Fatiar(procs, q, s, i).t - procs[i].tempoChegada
    ensures var r := Fatiar(procs, q, s, i); Resumo(procs, r.t, r.ini, r.rows, r.ordem, r.fimDe)
  {
    var r := Fatiar(procs, q, s, i);
    var d := Duracao(s.rest[i], q);
    var e := Intervalo(s.t, s.t + d, procs[i].pid, s.rest[i] - d);
    FatiarPronto(procs, q, s, i, d, e);
    if s.rest[i] == d {
      ResumoConclui(procs, s.t, r.t, s.ini, s.rows, s.ordem, s.fimDe, i, r.ini);
      assert r.rows == s.rows + [Linha(procs[i], r.ini[i], r.t)];
      assert r.ordem == s.ordem + [i] && r.fimDe == s.fimDe[i := r.t];
    } else {
      ResumoContinua(procs, s.t, r.t, s.ini, s.rows, s.ordem, s.fimDe, i, r.ini);
    }
  }

  /** The scan goes on after process i, with the slice as the latest entry. */
  lemma VarreduraFatia(procs: seq<Processo>, q: int, s: Situacao, i: nat)
    requires 0 < q && i < |procs| && Dimensoes(procs, s) && |s.trace| == |s.donos|
    requires Pronto(procs, s.fin, s.t, i)
    ensures var r := Fatiar(procs, q, s, i); Varredura(procs, r.t, r.fin, r.trace, r.donos, i + 1, true)
  {
    var d := Duracao(s.rest[i], q);
    var e := Intervalo(s.t, s.t + d, procs[i].pid, s.rest[i] - d);
    FatiarPronto(procs, q, s, i, d, e);
  }

  /** The count of unfinished processes after a slice. */
  lemma RestantesFatia(procs: seq<Processo>, q: int, s: Situacao, i: nat)
    requires 0 < q && i < |procs| && Dimensoes(procs, s) && Pronto(procs, s.fin, s.t, i)
    requires s.restantes == ContaFalsos(s.fin) && |s.ordem| == |procs| - s.restantes
    ensures var r := Fatiar(procs, q, s, i); r.restantes == ContaFalsos(r.fin) && |r.ordem| == |procs| - r.restantes
  {
    var r := Fatiar(procs, q, s, i);
    var d := Duracao(s.rest[i], q);
    var e := Intervalo(s.t, s.t + d, procs[i].pid, s.rest[i] - d);
    FatiarPronto(procs, q, s, i, d, e);
    if s.rest[i] == d {
      ContaFalsosMarca(s.fin, i);
      assert r.fin == s.fin[i := true];
    }
  }

  // ---------------------------------------------------------------------
  // The simulation as a function of its state
  // ---------------------------------------------------------------------

  /** The variables of simular_round_robin between two decisions: the clock,
      the remaining work, the finished flags, the recorded start times, the
      count of unfinished processes, the log and the summary so far. The
      last four fields are bookkeeping for the proof: the process of each
      trace entry, the order in which processes finished, the position of
      each process in that order (negative while unfinished), and their
      finish times (Horizonte while unfinished). */
  datatype Situacao = Situacao(t: int, rest: seq<int>, fin: seq<bool>, ini: seq<int>, restantes: int,
                               trace: seq<Intervalo>, rows: seq<Metrica>,
                               donos: seq<nat>, ordem: seq<nat>, pos: seq<int>, fimDe: seq<int>)

  /** One entry per process in every per-process sequence. */
  predicate Dimensoes(procs: seq<Processo>, s: Situacao)
  {
    |s.rest| == |procs| && |s.fin| == |procs| && |s.ini| == |procs| && |s.pos| == |procs| && |s.fimDe| == |procs|
  }

  /** The state before the first pass (src/simulador.c:119-142). */
  ghost function Inicial(procs: seq<Processo>): (s: Situacao)
    ensures Dimensoes(procs, s)
  {
    Situacao(0, seq(|procs|, i requires 0 <= i < |procs| => procs[i].tempoExecucao),
             seq(|procs|, _ => false), seq(|procs|, _ => 0), |procs|, [], [], [], [], seq(|procs|, _ => -1), SemFim(procs))
  }

  /** The state after process i runs a slice (src/simulador.c:151-198): a
      start of 0 is replaced by the slice's start, the slice starts at the
      clock or at the arrival if that is later, and lasts the quantum or what
      is left; if nothing is left and the process was not marked, its
      summary line is written, it is marked and counted off. */
  ghost function Fatiar(procs: seq<Processo>, q: int, s: Situacao, i: nat): (r: Situacao)
    requires i < |procs| && Dimensoes(procs, s)
    ensures Dimensoes(procs, r)
  {
    var inicio := if s.t < procs[i].tempoChegada then procs[i].tempoChegada else s.t;
    var ini := if s.ini[i] == 0 then s.ini[i := inicio] else s.ini;
    var d := Duracao(s.rest[i], q);
    var acaba := s.rest[i] - d == 0 && !s.fin[i];
    Situacao(inicio + d, s.rest[i := s.rest[i] - d], if acaba then s.fin[i := true] else s.fin, ini,
             if acaba then s.restantes - 1 else s.restantes,
             s.trace + [Intervalo(inicio, inicio + d, procs[i].pid, s.rest[i] - d)],
             if acaba then s.rows + [Linha(procs[i], ini[i], inicio + d)] else s.rows,
             s.donos + [i], if acaba then s.ordem + [i] else s.ordem,
             if acaba then s.pos[i := |s.ordem|] else s.pos,
             if acaba then s.fimDe[i := inicio + d] else s.fimDe)
  }

  /** The inner loop of src/simulador.c:148-200 from process i on, with the
      flag of line 151: each process that has work left and has arrived runs
      a slice. */
  ghost function Varrer(procs: seq<Processo>, q: int, s: Situacao, i: nat, executou: bool): (r: (Situacao, bool))
    requires i <= |procs| && Dimensoes(procs, s)
    ensures Dimensoes(procs, r.0)
    decreases |procs| - i
  {
    if i == |procs| then (s, executou)
    else if s.rest[i] > 0 && procs[i].tempoChegada <= s.t then Varrer(procs, q, Fatiar(procs, q, s, i), i + 1, true)
    else Varrer(procs, q, s, i + 1, executou)
  }

  /** One pass of the outer loop (src/simulador.c:145-206): visit every
      process, then advance the clock by one unit if nobody ran. */
  ghost function Volta(procs: seq<Processo>, q: int, s: Situacao): (r: Situacao)
    requires Dimensoes(procs, s)
    ensures Dimensoes(procs, r)
  {
    var v := Varrer(procs, q, s, 0, false);
    if v.1 then v.0 else v.0.(t := v.0.t + 1)
  }

  /** The state after k passes of the outer loop, which stops once no
      process is left unfinished. */
  ghost function Voltas(procs: seq<Processo>, q: int, s: Situacao, k: nat): (r: Situacao)
    requires Dimensoes(procs, s)
    ensures Dimensoes(procs, r)
  {
    if k == 0 then s
    else
      var p := Voltas(procs, q, s, k - 1);
      if p.restantes <= 0 then p else Volta(procs, q, p)
  }

  // ---------------------------------------------------------------------
  // The invariant along the functions
  // ---------------------------------------------------------------------

  /** The loop invariant on a state, with the count of unfinished processes. */
  ghost predicate Invariante(procs: seq<Processo>, q: int, s: Situacao)
  {
    && Estado(procs, q, s.t, s.rest, s.fin, s.ini, s.trace, s.donos, s.rows, s.ordem, s.pos, s.fimDe)
    && s.restantes == ContaFalsos(s.fin) && |s.ordem| == |procs| - s.restantes
  }

  /** Where the scan of a pass stands in state s. */
  ghost predicate VarreduraDe(procs: seq<Processo>, s: Situacao, i: nat, executou: bool)
  {
    Varredura(procs, s.t, s.fin, s.trace, s.donos, i, executou)
  }

  /** The start state satisfies the invariant, and the first pass starts
      from it. */
  lemma EstadoInicial(procs: seq<Processo>, q: int)
    requires forall i :: 0 <= i < |procs| ==> procs[i].tempoExecucao > 0
    ensures Invariante(procs, q, Inicial(procs)) && VarreduraDe(procs, Inicial(procs), 0, false)
  {
    var s := Inicial(procs);
    ContaFalsosNenhum(s.fin);
    SomaIntExecucoes(s.rest, procs);
    SomaIntLimites(s.rest, procs);
    assert Contas(procs, 0, s.rest, s.fin, [], s.pos);
    FormaInicial(procs, s.rest, s.fin);
    assert Escolhas(procs, q, s.fin, [], [], SemFim(procs));
    ResumoInicial(procs, s.ini, SemFim(procs));
  }

  /** A slice of a ready process, field by field, with the clock as its
      start: the arrival is not later, the slice lasts d and is logged as e,
      and it finishes the process exactly when it takes all that was left. */
  lemma FatiarPronto(procs: seq<Processo>, q: int, s: Situacao, i: nat, d: int, e: Intervalo)
    requires i < |procs| && Dimensoes(procs, s) && Pronto(procs, s.fin, s.t, i)
    requires d == Duracao(s.rest[i], q) && e == Intervalo(s.t, s.t + d, procs[i].pid, s.rest[i] - d)
    ensures var r := Fatiar(procs, q, s, i);
            && r.t == s.t + d && r.rest == s.rest[i := s.rest[i] - d]
            && r.fin == (if s.rest[i] == d then s.fin[i := true] else s.fin)
            && r.ini == (if s.ini[i] == 0 then s.ini[i := s.t] else s.ini)
            && r.restantes == (if s.rest[i] == d then s.restantes - 1 else s.restantes)
            && r.trace == s.trace + [e] && r.donos == s.donos + [i]
            && r.rows == (if s.rest[i] == d then s.rows + [Linha(procs[i], r.ini[i], r.t)] else s.rows)
            && r.ordem == (if s.rest[i] == d then s.ordem + [i] else s.ordem)
            && r.pos == (if s.rest[i] == d then s.pos[i := |s.ordem|] else s.pos)
            && r.fimDe == (if s.rest[i] == d then s.fimDe[i := r.t] else s.fimDe)
  {
  }

  /** A slice of the ready process the scan reached keeps the invariant, the
      pass goes on after it, and the remaining work goes down. */
  lemma FatiarPreserva(procs: seq<Processo>, q: int, s: Situacao, i: nat, executou: bool)
    requires 0 < q && i < |procs| && Dimensoes(procs, s)
    requires (Invariante(procs, q, s) == true) && (VarreduraDe(procs, s, i, executou) == true)
    requires s.rest[i] > 0 && procs[i].tempoChegada <= s.t
    ensures Invariante(procs, q, Fatiar(procs, q, s, i))
    ensures VarreduraDe(procs, Fatiar(procs, q, s, i), i + 1, true)
    ensures 0 <= SomaInt(Fatiar(procs, q, s, i).rest) < SomaInt(s.rest)
  {
    ProntoSeRestante(procs, s.t, s.rest, s.fin, s.ordem, s.pos, i);
    ContasFatia(procs, q, s, i);
    FormaFatia(procs, q, s, i);
    EscolhasFatia(procs, q, s, i, executou);
    IniciosFatia(procs, q, s, i);
    ForaDaOrdem(procs, s.t, s.rest, s.fin, s.ordem, s.pos, i);
    ResumoFatia(procs, q, s, i);
    VarreduraFatia(procs, q, s, i);
    RestantesFatia(procs, q, s, i);
  }

  /** Passing over process i when it has no work left or has not arrived:
      the state stays, and the pass goes on after i. */
  lemma PulaPreserva(procs: seq<Processo>, q: int, s: Situacao, i: nat, executou: bool)
    requires i < |procs| && Dimensoes(procs, s)
    requires (Invariante(procs, q, s) == true) && (VarreduraDe(procs, s, i, executou) == true)
    requires !(s.rest[i] > 0 && procs[i].tempoChegada <= s.t)
    ensures VarreduraDe(procs, s, i + 1, executou) == true
  {
    ProntoSeRestante(procs, s.t, s.rest, s.fin, s.ordem, s.pos, i);
    VarreduraPula(procs, s.t, s.fin, s.trace, s.donos, i, executou);
  }

  /** Where a pass that started in state s0 with flag ex0 stands in state x
      before it visits process j: the invariant holds, and either nothing has
      run yet or some process ran and the remaining work went down. */
  ghost predicate EmCurso(procs: seq<Processo>, q: int, s0: Situacao, ex0: bool, x: Situacao, j: nat, e: bool)
  {
    && Dimensoes(procs, x) && Invariante(procs, q, x) && VarreduraDe(procs, x, j, e)
    && ((x == s0 && e == ex0) || (e && SomaInt(x.rest) < SomaInt(s0.rest)))
  }

  /** EmCurso of state x, kept behind a quantifier whose trigger is EmCurso
      itself: the verifier opens it only where a proof names EmCurso for
      that state, so the pass below carries it from visit to visit without
      unfolding the invariant at each step. */
  ghost predicate Guardado(procs: seq<Processo>, q: int, s0: Situacao, ex0: bool, x: Situacao, j: nat, e: bool)
  {
    forall y {:trigger EmCurso(procs, q, s0, ex0, y, j, e)} :: y == x ==> EmCurso(procs, q, s0, ex0, y, j, e)
  }

  /** A visit that slices the ready process j keeps EmCurso. */
  lemma VisitaFatia(procs: seq<Processo>, q: int, s0: Situacao, ex0: bool, x: Situacao, j: nat, e: bool)
    requires 0 < q && j < |procs| && Guardado(procs, q, s0, ex0, x, j, e)
    requires Dimensoes(procs, x) && x.rest[j] > 0 && procs[j].tempoChegada <= x.t
    ensures Guardado(procs, q, s0, ex0, Fatiar(procs, q, x, j), j + 1, true)
  {
    assert EmCurso(procs, q, s0, ex0, x, j, e);
    FatiarPreserva(procs, q, x, j, e);
    assert EmCurso(procs, q, s0, ex0, Fatiar(procs, q, x, j), j + 1, true);
  }

  /** A visit that passes over process j keeps EmCurso. */
  lemma VisitaPula(procs: seq<Processo>, q: int, s0: Situacao, ex0: bool, x: Situacao, j: nat, e: bool)
    requires j < |procs| && Guardado(procs, q, s0, ex0, x, j, e)
    requires Dimensoes(procs, x) && !(x.rest[j] > 0 && procs[j].tempoChegada <= x.t)
    ensures Guardado(procs, q, s0, ex0, x, j + 1, e)
  {
    assert EmCurso(procs, q, s0, ex0, x, j, e);
    PulaPreserva(procs, q, x, j, e);
    assert EmCurso(procs, q, s0, ex0, x, j + 1, e);
  }

  /** The rest of a pass from process i keeps EmCurso. */
  lemma VarrerGuardado(procs: seq<Processo>, q: int, s0: Situacao, ex0: bool, s: Situacao, i: nat, executou: bool,
                       v: (Situacao, bool))
    requires 0 < q && i <= |procs| && Dimensoes(procs, s) && Guardado(procs, q, s0, ex0, s, i, executou)
    requires v == Varrer(procs, q, s, i, executou)
    ensures Guardado(procs, q, s0, ex0, v.0, |procs|, v.1)
  {
    var x, j, e := s, i, executou;
    while j < |procs|
      invariant j <= |procs| && Dimensoes(procs, x)
      invariant Guardado(procs, q, s0, ex0, x, j, e)
      invariant Varrer(procs, q, x, j, e) == v
      decreases |procs| - j
    {
      if x.rest[j] > 0 && procs[j].tempoChegada <= x.t {
        VisitaFatia(procs, q, s0, ex0, x, j, e);
        x, e := Fatiar(procs, q, x, j), true;
      } else {
        VisitaPula(procs, q, s0, ex0, x, j, e);
      }
      j := j + 1;
    }
  }

  /** The rest of a pass from process i keeps the invariant and ends with
      every process visited; either nobody ran and nothing changed, or the
      remaining work went down. */
  lemma VarrerPreserva(procs: seq<Processo>, q: int, s: Situacao, i: nat, executou: bool, v: (Situacao, bool))
    requires 0 < q && i <= |procs| && Dimensoes(procs, s)
    requires (Invariante(procs, q, s) == true) && (VarreduraDe(procs, s, i, executou) == true)
    requires v == Varrer(procs, q, s, i, executou)
    ensures (Invariante(procs, q, v.0) == true) && (VarreduraDe(procs, v.0, |procs|, v.1) == true)
    ensures 0 <= SomaInt(v.0.rest)
    ensures v == (s, executou) || (v.1 && SomaInt(v.0.rest) < SomaInt(s.rest))
  {
    assert EmCurso(procs, q, s, executou, s, i, executou) == true;
    VarrerGuardado(procs, q, s, executou, s, i, executou, v);
    assert EmCurso(procs, q, s, executou, v.0, |procs|, v.1) == true;
    SomaIntLimites(v.0.rest, procs);
  }

  /** A pass with a process left unfinished keeps the invariant; the
      remaining work goes down, or it stays and the clock moves one unit
      closer to the latest arrival. */
  lemma VoltaPreserva(procs: seq<Processo>, q: int, s: Situacao, w: Situacao)
    requires 0 < q && Dimensoes(procs, s) && s.restantes > 0
    requires (Invariante(procs, q, s) == true) && (VarreduraDe(procs, s, 0, false) == true)
    requires w == Volta(procs, q, s)
    ensures (Invariante(procs, q, w) == true) && (VarreduraDe(procs, w, 0, false) == true)
    ensures 0 <= SomaInt(w.rest)
    ensures || SomaInt(w.rest) < SomaInt(s.rest)
            || (SomaInt(w.rest) == SomaInt(s.rest) && 0 <= MaxChegada(procs) - w.t < MaxChegada(procs) - s.t)
  {
    var v := Varrer(procs, q, s, 0, false);
    VarrerPreserva(procs, q, s, 0, false, v);
    if v.1 {
      VarreduraNovaVolta(procs, v.0.t, v.0.fin, v.0.trace, v.0.donos);
    } else {
      EstadoOcioso(procs, q, v.0, w);
    }
  }

  /** The invariant holds after any number of passes from the start state. */
  lemma {:induction false} VoltasPreserva(procs: seq<Processo>, q: int, s: Situacao, k: nat, r: Situacao)
    requires 0 < q && Dimensoes(procs, s)
    requires (Invariante(procs, q, s) == true) && (VarreduraDe(procs, s, 0, false) == true)
    requires r == Voltas(procs, q, s, k)
    ensures (Invariante(procs, q, r) == true) && (VarreduraDe(procs, r, 0, false) == true)
    decreases k
  {
    if k > 0 {
      var p := Voltas(procs, q, s, k - 1);
      VoltasPreserva(procs, q, s, k - 1, p);
      if p.restantes > 0 {
        VoltaPreserva(procs, q, p, r);
      }
    }
  }

  /** While a process is unfinished, the next pass makes progress: the
      remaining work goes down, or the clock approaches the latest arrival. */
  lemma VoltaAvanca(procs: seq<Processo>, q: int, k: nat)
    requires 0 < q && forall i :: 0 <= i < |procs| ==> procs[i].tempoExecucao > 0
    requires Voltas(procs, q, Inicial(procs), k).restantes > 0
    ensures var p := Voltas(procs, q, Inicial(procs), k);
            && 0 <= SomaInt(p.rest) && 0 <= SomaInt(Volta(procs, q, p).rest)
            && (|| SomaInt(Volta(procs, q, p).rest) < SomaInt(p.rest)
                || (SomaInt(Volta(procs, q, p).rest) == SomaInt(p.rest) &&
                    0 <= MaxChegada(procs) - Volta(procs, q, p).t < MaxChegada(procs) - p.t))
  {
    EstadoInicial(procs, q);
    VoltasPreserva(procs, q, Inicial(procs), k, Voltas(procs, q, Inicial(procs), k));
    var p := Voltas(procs, q, Inicial(procs), k);
    SomaIntLimites(p.rest, procs);
    VoltaPreserva(procs, q, p, Volta(procs, q, p));
  }

  /** When every process has finished, the invariant gives what the
      simulation promises. */
  lemma EstadoFinal(procs: seq<Processo>, q: int, t: int, rest: seq<int>, fin: seq<bool>, ini: seq<int>,
                    trace: seq<Intervalo>, donos: seq<nat>, rows: seq<Metrica>, ordem: seq<nat>, pos: seq<int>,
                    fimDe: seq<int>)
    requires Estado(procs, q, t, rest, fin, ini, trace, donos, rows, ordem, pos, fimDe)
    requires ContaFalsos(fin) == 0 && |ordem| == |procs|
    ensures |rows| == |procs| && Permutacao(ordem, |procs|) && |fimDe| == |procs|
    ensures TraceCoerente(procs, trace, donos)
    ensures forall m :: 0 <= m < |trace| ==> PassoRR(procs, q, fimDe, trace, donos, m)
    ensures OciosidadeJustificada(procs, fimDe, trace)
    ensures forall i :: 0 <= i < |procs| ==> Servido(trace, donos, i) == procs[i].tempoExecucao
    ensures forall i :: 0 <= i < |procs| ==> fimDe[i] <= LivreTrace(trace, |trace|)
    ensures forall m :: 0 <= m < |trace| && trace[m].restante == 0 ==> fimDe[donos[m]] == trace[m].fim
    ensures forall k :: 0 <= k < |rows| ==>
              Concluido(procs[ordem[k]], rows[k]) && rows[k].fim == fimDe[ordem[k]] &&
              rows[k].inicio == InicioRegistrado(trace, donos, ordem[k])
    ensures forall k, l :: 0 <= k < l < |rows| ==> rows[k].fim < rows[l].fim
  {
    ContaFalsosZero(fin);
    ResumoCrescente(procs, t, ini, rows, ordem, fimDe);
    forall i | 0 <= i < |procs|
      ensures i in ordem
    {
      assert fin[i] && ordem[pos[i]] == i;
    }
  }

  /** Once no process is left unfinished after k passes from the start
      state, the state gives what the simulation promises. */
  lemma VoltasFim(procs: seq<Processo>, q: int, k: nat, rows: seq<Metrica>, trace: seq<Intervalo>, ordem: seq<nat>,
                   donos: seq<nat>, fimDe: seq<int>)
    requires 0 < q && forall i :: 0 <= i < |procs| ==> procs[i].tempoExecucao > 0
    requires var s := Voltas(procs, q, Inicial(procs), k);
             && s.restantes <= 0 && rows == s.rows && trace == s.trace
             && ordem == s.ordem && donos == s.donos && fimDe == s.fimDe
    ensures |rows| == |procs| && Permutacao(ordem, |procs|) && |fimDe| == |procs|
    ensures TraceCoerente(procs, trace, donos)
    ensures forall m :: 0 <= m < |trace| ==> PassoRR(procs, q, fimDe, trace, donos, m)
    ensures OciosidadeJustificada(procs, fimDe, trace)
    ensures forall i :: 0 <= i < |procs| ==> Servido(trace, donos, i) == procs[i].tempoExecucao
    ensures forall i :: 0 <= i < |procs| ==> fimDe[i] <= LivreTrace(trace, |trace|)
    ensures forall m :: 0 <= m < |trace| && trace[m].restante == 0 ==> fimDe[donos[m]] == trace[m].fim
    ensures forall k :: 0 <= k < |rows| ==>
              Concluido(procs[ordem[k]], rows[k]) && rows[k].fim == fimDe[ordem[k]] &&
              rows[k].inicio == InicioRegistrado(trace, donos, ordem[k])
    ensures forall k, l :: 0 <= k < l < |rows| ==> rows[k].fim < rows[l].fim
  {
    EstadoInicial(procs, q);
    VoltasPreserva(procs, q, Inicial(procs), k, Voltas(procs, q, Inicial(procs), k));
    var s := Voltas(procs, q, Inicial(procs), k);
    ContaFalsosZero(s.fin);
    EstadoFinal(procs, q, s.t, s.rest, s.fin, s.ini, s.trace, s.donos, s.rows, s.ordem, s.pos, s.fimDe);
  }

  // ---------------------------------------------------------------------
  // The simulation
  // ---------------------------------------------------------------------

  /** The variables of the C code hold state s. */
  ghost predicate Guarda(s: Situacao, t: int, restantes: int, tempoRestante: array<int>, terminado: array<bool>,
                         inicioExecucao: array<int>, trace: seq<Intervalo>, rows: seq<Metrica>)
    reads tempoRestante, terminado, inicioExecucao
  {
    && t == s.t && restantes == s.restantes && trace == s.trace && rows == s.rows
    && tempoRestante[..] == s.rest && terminado[..] == s.fin && inicioExecucao[..] == s.ini
  }

  /** The body of the test of src/simulador.c:150 (lines 151-198, without
      the flag of line 151): record the start of the first slice, run the
      slice, decrement the remaining work, log it, and if it left nothing
      and the process was not marked, append its summary line, mark it and
      count it off. */
  method Fatia(procs: seq<Processo>, q: int, t: int, restantes: int, tempoRestante: array<int>, terminado: array<bool>,
               inicioExecucao: array<int>, trace: seq<Intervalo>, rows: seq<Metrica>, i: nat, ghost s: Situacao)
      returns (t2: int, restantes2: int, trace2: seq<Intervalo>, rows2: seq<Metrica>)
    requires i < |procs| && Dimensoes(procs, s) && tempoRestante != inicioExecucao
    requires Guarda(s, t, restantes, tempoRestante, terminado, inicioExecucao, trace, rows)
    modifies tempoRestante, terminado, inicioExecucao
    ensures Guarda(Fatiar(procs, q, s, i), t2, restantes2, tempoRestante, terminado, inicioExecucao, trace2, rows2)
  {
    if inicioExecucao[i] == 0 {
      inicioExecucao[i] := if t < procs[i].tempoChegada then procs[i].tempoChegada else t;
    }
    var tempoExec := if tempoRestante[i] < q then tempoRestante[i] else q;
    var tempoInicio := if t < procs[i].tempoChegada then procs[i].tempoChegada else t;
    t2 := tempoInicio + tempoExec;
    tempoRestante[i] := tempoRestante[i] - tempoExec;
    trace2 := trace + [Intervalo(tempoInicio, t2, procs[i].pid, tempoRestante[i])];
    rows2, restantes2 := rows, restantes;
    if tempoRestante[i] == 0 && !terminado[i] {
      var fim := t2;
      var turnaround := fim - procs[i].tempoChegada;
      var espera := turnaround - procs[i].tempoExecucao;
      rows2 := rows + [Metrica(procs[i].pid, inicioExecucao[i], fim, turnaround, espera)];
      terminado[i] := true;
      restantes2 := restantes - 1;
    }
  }

  /** One pass of the outer loop of src/simulador.c:145-206: visit every
      process in list order, running a slice of each one that has work left
      and has arrived, then advance the clock by one unit if nobody ran. */
  method UmaVolta(procs: seq<Processo>, q: int, t: int, restantes: int, tempoRestante: array<int>,
                  terminado: array<bool>, inicioExecucao: array<int>, trace: seq<Intervalo>, rows: seq<Metrica>,
                  ghost s: Situacao)
      returns (t2: int, restantes2: int, trace2: seq<Intervalo>, rows2: seq<Metrica>)
    requires Dimensoes(procs, s) && tempoRestante != inicioExecucao
    requires Guarda(s, t, restantes, tempoRestante, terminado, inicioExecucao, trace, rows)
    modifies tempoRestante, terminado, inicioExecucao
    ensures Guarda(Volta(procs, q, s), t2, restantes2, tempoRestante, terminado, inicioExecucao, trace2, rows2)
  {
    var executou := false;
    ghost var c := s;
    t2, restantes2, trace2, rows2 := t, restantes, trace, rows;
    for i := 0 to |procs|
      invariant Dimensoes(procs, c)
      invariant Guarda(c, t2, restantes2, tempoRestante, terminado, inicioExecucao, trace2, rows2)
      invariant Varrer(procs, q, c, i, executou) == Varrer(procs, q, s, 0, false)
    {
      if tempoRestante[i] > 0 && procs[i].tempoChegada <= t2 {
        executou := true;
        t2, restantes2, trace2, rows2 :=
          Fatia(procs, q, t2, restantes2, tempoRestante, terminado, inicioExecucao, trace2, rows2, i, c);
        c := Fatiar(procs, q, c, i);
      }
    }
    if !executou {
      t2 := t2 + 1;
      c := c.(t := c.t + 1);
    }
  }

  /** The outer loop of src/simulador.c:145-206 from the start state: passes
      over the list until no process is left unfinished; k is the number of
      passes. */
  method Voltear(procs: seq<Processo>, q: int, tempoRestante: array<int>, terminado: array<bool>,
                 inicioExecucao: array<int>)
      returns (t: int, restantes: int, trace: seq<Intervalo>, rows: seq<Metrica>, ghost k: nat)
    requires 0 < q && forall i :: 0 <= i < |procs| ==> procs[i].tempoExecucao > 0
    requires tempoRestante != inicioExecucao
    requires Guarda(Inicial(procs), 0, |procs|, tempoRestante, terminado, inicioExecucao, [], [])
    modifies tempoRestante, terminado, inicioExecucao
    ensures restantes <= 0
    ensures Guarda(Voltas(procs, q, Inicial(procs), k), t, restantes, tempoRestante, terminado, inicioExecucao, trace, rows)
  {
    t, restantes, trace, rows, k := 0, |procs|, [], [], 0;
    while restantes > 0
      invariant Guarda(Voltas(procs, q, Inicial(procs), k), t, restantes, tempoRestante, terminado, inicioExecucao,
                       trace, rows)
      decreases SomaInt(tempoRestante[..]), MaxChegada(procs) - t
    {
      VoltaAvanca(procs, q, k);
      t, restantes, trace, rows :=
        UmaVolta(procs, q, t, restantes, tempoRestante, terminado, inicioExecucao, trace, rows,
                 Voltas(procs, q, Inicial(procs), k));
      k := k + 1;
    }
  }

  /** simular_round_robin with the quantum of src/simulador.c:118. The trace
      lists every slice; rows[k] is the summary line of process ordem[k],
      written when it finished; fimDe[i] is the time process i finished. A
      burst of 0 or less would never pass the test of line 150, so that
      process would never be counted off and the C loop would not end. */
  method SimularRoundRobin(procs: seq<Processo>)
      returns (rows: seq<Metrica>, trace: seq<Intervalo>, ghost ordem: seq<nat>, ghost donos: seq<nat>,
               ghost fimDe: seq<int>)
    requires forall i :: 0 <= i < |procs| ==> procs[i].tempoExecucao > 0
    ensures |rows| == |procs| && Permutacao(ordem, |procs|) && |fimDe| == |procs|
    ensures TraceCoerente(procs, trace, donos)
    ensures forall m :: 0 <= m < |trace| ==> PassoRR(procs, QUANTUM, fimDe, trace, donos, m)
    ensures OciosidadeJustificada(procs, fimDe, trace)
    ensures forall i :: 0 <= i < |procs| ==> Servido(trace, donos, i) == procs[i].tempoExecucao
    ensures forall i :: 0 <= i < |procs| ==> fimDe[i] <= LivreTrace(trace, |trace|)
    ensures forall m :: 0 <= m < |trace| && trace[m].restante == 0 ==> fimDe[donos[m]] == trace[m].fim
    ensures forall k :: 0 <= k < |rows| ==>
              Concluido(procs[ordem[k]], rows[k]) && rows[k].fim == fimDe[ordem[k]] &&
              rows[k].inicio == InicioRegistrado(trace, donos, ordem[k])
    ensures forall k, l :: 0 <= k < l < |rows| ==> rows[k].fim < rows[l].fim
  {
    var quantum := QUANTUM;
    var n := |procs|;
    var tempoAtual := 0;
    var tempoRestante := new int[n];
    for i := 0 to n
      invariant forall j :: 0 <= j < i ==> tempoRestante[j] == procs[j].tempoExecucao
    {
      tempoRestante[i] := procs[i].tempoExecucao;
    }
    var processosRestantes := n;
    var inicioExecucao := new int[n](_ => 0);
    var terminado := new bool[n](_ => false);
    trace, rows := [], [];
    assert tempoRestante[..] == Inicial(procs).rest && terminado[..] == Inicial(procs).fin;
    assert inicioExecucao[..] == Inicial(procs).ini;
    assert Guarda(Inicial(procs), tempoAtual, processosRestantes, tempoRestante, terminado, inicioExecucao, trace, rows);
    ghost var k: nat;
    tempoAtual, processosRestantes, trace, rows, k := Voltear(procs, quantum, tempoRestante, terminado, inicioExecucao);
    ghost var s := Voltas(procs, quantum, Inicial(procs), k);
    ordem, donos, fimDe := s.ordem, s.donos, s.fimDe;
    VoltasFim(procs, quantum, k, rows, trace, ordem, donos, fimDe);
  }
}
