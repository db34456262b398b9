/**
 * Definitions shared by the four simulations of src/simulador.c: the rows of
 * the metrics table, the entries of the step-by-step trace, the scan that
 * picks the ready process with the smallest key (SJF and Priority), and the
 * counting facts that tie the C counters to the per-process flags.
 */
module Escalonamento {
  import opened Processos

  /** __INT_MAX__ of a 32-bit C int: the "nothing found yet" value of the
      selection scans (src/simulador.c:75 and 243). */
  const INT_MAX: int := 0x7fff_ffff

  /** Literal header of every metrics table. */
  const CABECALHO_METRICAS: string := "PID\tInício\tFim\tTurnaround\tEspera\n"

  /** One line of a metrics table: PID, start, finish, turnaround, waiting time. */
  datatype Metrica = Metrica(pid: int, inicio: int, fim: int, turnaround: int, espera: int)

  /** One step of a trace: the process `pid` held the CPU from `inicio` to `fim`
      and had `restante` units of work left afterwards. */
  datatype Intervalo = Intervalo(inicio: int, fim: int, pid: int, restante: int)

  /** A row of a non-preemptive schedule: the process ran in one piece,
      starting no earlier than its arrival (src/simulador.c:44-47, 94-97). */
  predicate ExecucaoContinua(p: Processo, m: Metrica)
  {
    && m.pid == p.pid
    && p.tempoChegada <= m.inicio
    && m.fim == m.inicio + p.tempoExecucao
    && m.turnaround == m.fim - p.tempoChegada
    && m.espera == m.inicio - p.tempoChegada
  }

  /** A row of a preemptive schedule (src/simulador.c:183-185, 278-280):
      turnaround and waiting time computed from the finish time, and the
      process never waited a negative time. */
  predicate Concluido(p: Processo, m: Metrica)
  {
    && m.pid == p.pid
    && m.turnaround == m.fim - p.tempoChegada
    && m.espera == m.turnaround - p.tempoExecucao
    && m.espera >= 0
  }

  /** `ordem` names every process index below `n` exactly once. */
  ghost predicate Permutacao(ordem: seq<nat>, n: nat)
  {
    && |ordem| == n
    && (forall k :: 0 <= k < n ==> ordem[k] < n)
    && (forall k, l :: 0 <= k < l < n ==> ordem[k] != ordem[l])
    && (forall i :: 0 <= i < n ==> i in ordem)
  }

  /** The time the CPU became free before row or trace step `k`: the clock
      starts at 0 and each step begins after the previous one ended. */
  function LivreMetricas(rows: seq<Metrica>, k: nat): int
    requires k <= |rows|
  {
    if k == 0 then 0 else rows[k - 1].fim
  }

  function LivreTrace(trace: seq<Intervalo>, k: nat): int
    requires k <= |trace|
  {
    if k == 0 then 0 else trace[k - 1].fim
  }

  // ---------------------------------------------------------------------
  // Counters and sums
  // ---------------------------------------------------------------------

  /** Number of unset flags: the counters concluídos / processos_restantes
      are kept equal to this (or to n minus it). */
  function ContaFalsos(s: seq<bool>): (r: nat)
    ensures r <= |s|
  {
    if |s| == 0 then 0 else ContaFalsos(s[..|s| - 1]) + (if s[|s| - 1] then 0 else 1)
  }

  /** With no flag set, every flag counts. */
  lemma {:induction false} ContaFalsosNenhum(s: seq<bool>)
    requires forall i :: 0 <= i < |s| ==> !s[i]
    ensures ContaFalsos(s) == |s|
  {
    if |s| > 0 {
      ContaFalsosNenhum(s[..|s| - 1]);
    }
  }

  /** The count is zero exactly when every flag is set. */
  lemma {:induction false} ContaFalsosZero(s: seq<bool>)
    ensures ContaFalsos(s) == 0 <==> forall i :: 0 <= i < |s| ==> s[i]
  {
    if |s| > 0 {
      var u := s[..|s| - 1];
      ContaFalsosZero(u);
      assert forall i :: 0 <= i < |u| ==> u[i] == s[i];
    }
  }

  /** Setting one unset flag lowers the count by exactly one. */
  lemma {:induction false} ContaFalsosMarca(s: seq<bool>, i: nat)
    requires i < |s| && !s[i]
    ensures ContaFalsos(s[i := true]) == ContaFalsos(s) - 1
  {
    var u := s[i := true];
    if i < |s| - 1 {
      assert u[..|u| - 1] == s[..|s| - 1][i := true];
      ContaFalsosMarca(s[..|s| - 1], i);
    } else {
      assert u[..|u| - 1] == s[..|s| - 1];
    }
  }

  /** Sum of a sequence of integers (the remaining work of all processes). */
  function SomaInt(s: seq<int>): int
  {
    if |s| == 0 then 0 else SomaInt(s[..|s| - 1]) + s[|s| - 1]
  }

  /** Total burst time of a process list. */
  function SomaExecucao(procs: seq<Processo>): int
  {
    if |procs| == 0 then 0 else SomaExecucao(procs[..|procs| - 1]) + procs[|procs| - 1].tempoExecucao
  }

  /** Changing one element changes the sum by the difference. */
  lemma {:induction false} SomaIntAtualiza(s: seq<int>, i: nat, v: int)
    requires i < |s|
    ensures SomaInt(s[i := v]) == SomaInt(s) - s[i] + v
  {
    var u := s[i := v];
    if i < |s| - 1 {
      assert u[..|u| - 1] == s[..|s| - 1][i := v];
      SomaIntAtualiza(s[..|s| - 1], i, v);
    } else {
      assert u[..|u| - 1] == s[..|s| - 1];
    }
  }

  /** A copy of the bursts sums to the total burst time. */
  lemma {:induction false} SomaIntExecucoes(s: seq<int>, procs: seq<Processo>)
    requires |s| == |procs|
    requires forall i :: 0 <= i < |s| ==> s[i] == procs[i].tempoExecucao
    ensures SomaInt(s) == SomaExecucao(procs)
  {
    if |s| > 0 {
      SomaIntExecucoes(s[..|s| - 1], procs[..|procs| - 1]);
    }
  }

  /** A sequence of non-negative values below their bursts sums to at most the
      total burst, and to zero exactly when all values are zero. */
  lemma {:induction false} SomaIntLimites(s: seq<int>, procs: seq<Processo>)
    requires |s| == |procs|
    requires forall i :: 0 <= i < |s| ==> 0 <= s[i] <= procs[i].tempoExecucao
    ensures 0 <= SomaInt(s) <= SomaExecucao(procs)
    ensures SomaInt(s) == 0 <==> forall i :: 0 <= i < |s| ==> s[i] == 0
  {
    if |s| > 0 {
      var u, p := s[..|s| - 1], procs[..|procs| - 1];
      SomaIntLimites(u, p);
      assert forall i :: 0 <= i < |u| ==> u[i] == s[i];
    }
  }

  /** The latest arrival time of a process list, or 0 when that is larger. */
  function MaxChegada(procs: seq<Processo>): (r: int)
    ensures forall i :: 0 <= i < |procs| ==> procs[i].tempoChegada <= r
    ensures 0 <= r
  {
    if |procs| == 0 then 0
    else
      var m := MaxChegada(procs[..|procs| - 1]);
      if procs[|procs| - 1].tempoChegada > m then procs[|procs| - 1].tempoChegada else m
  }

  /** A time later than every clock value of a preemptive run: the clock only
      idles up to the latest arrival and otherwise advances with executed work. */
  function Horizonte(procs: seq<Processo>): int
  {
    MaxChegada(procs) + SomaExecucao(procs) + 1
  }

  // ---------------------------------------------------------------------
  // The scan that picks a ready process (src/simulador.c:75-86, 243-254)
  // ---------------------------------------------------------------------

  /** The field a scan minimises: the burst for SJF, the priority for Priority. */
  datatype Criterio = MenorExecucao | MenorPrioridade

  function Chave(p: Processo, c: Criterio): int
  {
    match c
    case MenorExecucao => p.tempoExecucao
    case MenorPrioridade => p.prioridade
  }

  /** Process j has arrived by time t and is not marked finished. */
  predicate Pronto(procs: seq<Processo>, fin: seq<bool>, t: int, j: int)
  {
    0 <= j < |procs| && j < |fin| && !fin[j] && procs[j].tempoChegada <= t
  }

  /** The flags of n processes of which those listed in `feitos` finished. */
  function Marcados(n: nat, feitos: seq<nat>): (r: seq<bool>)
    ensures |r| == n && forall j :: 0 <= j < n ==> (r[j] <==> j in feitos)
  {
    seq(n, j => j in feitos)
  }

  /** The flags of the processes finished by time t, process j finishing at
      fimDe[j]. */
  function Terminados(fimDe: seq<int>, t: int): (r: seq<bool>)
    ensures |r| == |fimDe| && forall j :: 0 <= j < |fimDe| ==> (r[j] <==> fimDe[j] <= t)
  {
    seq(|fimDe|, j requires 0 <= j < |fimDe| => fimDe[j] <= t)
  }

  /** Process i is ready and has the smallest key among the ready processes,
      and any ready process before it has a strictly larger key. */
  predicate MenorPronto(procs: seq<Processo>, fin: seq<bool>, t: int, c: Criterio, i: int)
  {
    && Pronto(procs, fin, t, i)
    && forall j :: 0 <= j < |procs| && Pronto(procs, fin, t, j) ==>
         Chave(procs[i], c) <= Chave(procs[j], c) && (j < i ==> Chave(procs[i], c) < Chave(procs[j], c))
  }

  /** Linear scan with a running minimum that starts at INT_MAX and is
      replaced only on a strictly smaller key, so the lowest index wins ties
      and a ready process whose key is INT_MAX is never chosen. */
  method EscolherMenor(procs: seq<Processo>, fin: seq<bool>, t: int, c: Criterio) returns (indice: int)
    requires |fin| == |procs|
    ensures -1 <= indice < |procs|
    ensures indice == -1 <==> forall j :: Pronto(procs, fin, t, j) ==> Chave(procs[j], c) >= INT_MAX
    ensures indice >= 0 ==> MenorPronto(procs, fin, t, c, indice) && Chave(procs[indice], c) < INT_MAX
  {
    var menor := INT_MAX;
    indice := -1;
    var i := 0;
    while i < |procs|
      invariant 0 <= i <= |procs|
      invariant -1 <= indice < i
      invariant indice == -1 ==> menor == INT_MAX
      invariant indice >= 0 ==> Pronto(procs, fin, t, indice) && menor == Chave(procs[indice], c) < INT_MAX
      invariant forall j :: 0 <= j < i && Pronto(procs, fin, t, j) ==> menor <= Chave(procs[j], c)
      invariant forall j :: 0 <= j < indice && Pronto(procs, fin, t, j) ==> menor < Chave(procs[j], c)
    {
      if !fin[i] && procs[i].tempoChegada <= t {
        if Chave(procs[i], c) < menor {
          menor := Chave(procs[i], c);
          indice := i;
        }
      }
      i := i + 1;
    }
  }

  /** When the scan finds nothing while some process is unfinished and every
      key is below INT_MAX, that process arrives later: the clock is still
      below the latest arrival, so the idle units are finite. */
  lemma OciosoAntesDaUltimaChegada(procs: seq<Processo>, fin: seq<bool>, t: int, c: Criterio)
    requires |fin| == |procs| && ContaFalsos(fin) > 0
    requires forall i :: 0 <= i < |procs| ==> Chave(procs[i], c) < INT_MAX
    requires forall j :: Pronto(procs, fin, t, j) ==> Chave(procs[j], c) >= INT_MAX
    ensures t < MaxChegada(procs)
    ensures forall j :: 0 <= j < |procs| && !fin[j] ==> t < procs[j].tempoChegada
  {
    ContaFalsosZero(fin);
    var j :| 0 <= j < |fin| && !fin[j];
    assert !Pronto(procs, fin, t, j);
  }

  // ---------------------------------------------------------------------
  // Traces of the preemptive simulations (Round-Robin and Priority)
  // ---------------------------------------------------------------------

  /** Units of CPU the trace gave to process index i (donos[m] is the index
      of the process that ran in trace[m]). */
  function Servido(trace: seq<Intervalo>, donos: seq<nat>, i: nat): int
    requires |trace| == |donos|
  {
    if |trace| == 0 then 0
    else
      var m := |trace| - 1;
      Servido(trace[..m], donos[..m], i) + (if donos[m] == i then trace[m].fim - trace[m].inicio else 0)
  }

  /** Trace entry m ended no later than entry l began. */
  predicate Precede(trace: seq<Intervalo>, m: nat, l: nat)
    requires m < |trace| && l < |trace|
  {
    trace[m].fim <= trace[l].inicio
  }

  /** The basic shape of a trace: each entry names the process that ran, lasts
      at least one unit, begins at time 0 or later and no earlier than every
      previous entry ended, and reports what that process had left, namely its burst
      minus all it had been served up to and including that entry. */
  ghost predicate TraceCoerente(procs: seq<Processo>, trace: seq<Intervalo>, donos: seq<nat>)
  {
    && |trace| == |donos|
    && (forall m :: 0 <= m < |trace| ==> donos[m] < |procs|)
    && (forall m :: 0 <= m < |trace| ==> trace[m].pid == procs[donos[m]].pid)
    && (forall m :: 0 <= m < |trace| ==> 0 <= trace[m].inicio < trace[m].fim)
    && (forall m, l :: 0 <= m < l < |trace| ==> Precede(trace, m, l))
    && (forall m :: 0 <= m < |trace| ==>
          trace[m].restante == procs[donos[m]].tempoExecucao - Servido(trace[..m + 1], donos[..m + 1], donos[m]))
  }

  /** Adding an entry for process i keeps the units served to every process
      apart from i. */
  lemma ServidoExtende(trace: seq<Intervalo>, donos: seq<nat>, e: Intervalo, i: nat, j: nat)
    requires |trace| == |donos|
    ensures Servido(trace + [e], donos + [i], j) ==
            Servido(trace, donos, j) + (if i == j then e.fim - e.inicio else 0)
  {
    assert (trace + [e])[..|trace|] == trace;
    assert (donos + [i])[..|donos|] == donos;
  }

  /** A coherent trace stays coherent when process i runs after the CPU
      became free and the entry reports i's burst minus all it was served. */
  lemma TraceCoerenteExtende(procs: seq<Processo>, trace: seq<Intervalo>, donos: seq<nat>, e: Intervalo, i: nat)
    requires TraceCoerente(procs, trace, donos)
    requires i < |procs| && e.pid == procs[i].pid
    requires 0 <= e.inicio < e.fim && forall m :: 0 <= m < |trace| ==> trace[m].fim <= e.inicio
    requires e.restante == procs[i].tempoExecucao - Servido(trace, donos, i) - (e.fim - e.inicio)
    ensures TraceCoerente(procs, trace + [e], donos + [i])
  {
    var trace2, donos2 := trace + [e], donos + [i];
    assert forall m :: 0 <= m < |trace| ==> trace2[m] == trace[m] && donos2[m] == donos[m];
    assert trace2[|trace|] == e && donos2[|trace|] == i;
    PrecedeExtende(trace, e, trace2);
    RestanteExtende(procs, trace, donos, e, i);
  }

  /** Entries in time order stay so when the new one starts after them all. */
  lemma PrecedeExtende(trace: seq<Intervalo>, e: Intervalo, trace2: seq<Intervalo>)
    requires forall m, l :: 0 <= m < l < |trace| ==> Precede(trace, m, l)
    requires (forall m :: 0 <= m < |trace| ==> trace[m].fim <= e.inicio) && trace2 == trace + [e]
    ensures forall m, l :: 0 <= m < l < |trace2| ==> Precede(trace2, m, l)
  {
    forall m, l | 0 <= m < l < |trace2|
      ensures Precede(trace2, m, l)
    {
      assert trace2[m] == trace[m];
      if l < |trace| {
        assert trace2[l] == trace[l] && Precede(trace, m, l);
      }
    }
  }

  /** The remaining work reported by each entry survives appending one. */
  lemma RestanteExtende(procs: seq<Processo>, trace: seq<Intervalo>, donos: seq<nat>, e: Intervalo, i: nat)
    requires |trace| == |donos| && i < |procs|
    requires forall m :: 0 <= m < |trace| ==> donos[m] < |procs|
    requires forall m :: 0 <= m < |trace| ==>
               trace[m].restante == procs[donos[m]].tempoExecucao - Servido(trace[..m + 1], donos[..m + 1], donos[m])
    requires e.restante == procs[i].tempoExecucao - Servido(trace, donos, i) - (e.fim - e.inicio)
    ensures forall m :: 0 <= m < |trace| + 1 ==>
              (trace + [e])[m].restante ==
                procs[(donos + [i])[m]].tempoExecucao - Servido((trace + [e])[..m + 1], (donos + [i])[..m + 1], (donos + [i])[m])
  {
    var trace2, donos2 := trace + [e], donos + [i];
    forall m | 0 <= m < |trace2|
      ensures trace2[m].restante ==
                procs[donos2[m]].tempoExecucao - Servido(trace2[..m + 1], donos2[..m + 1], donos2[m])
    {
      if m < |trace| {
        PrefixoExtende(trace, donos, e, i, m);
      } else {
        assert trace2[..m + 1] == trace2 && donos2[..m + 1] == donos2;
        ServidoExtende(trace, donos, e, i, i);
      }
    }
  }

  /** Appending an entry leaves every earlier entry and prefix as it was. */
  lemma PrefixoExtende(trace: seq<Intervalo>, donos: seq<nat>, e: Intervalo, i: nat, m: nat)
    requires m < |trace| == |donos|
    ensures (trace + [e])[..m + 1] == trace[..m + 1] && (donos + [i])[..m + 1] == donos[..m + 1]
    ensures (trace + [e])[m] == trace[m] && (donos + [i])[m] == donos[m]
  {
  }

  /** If the CPU stood idle before trace entry m (it began after the CPU became
      free), process j could not have run: it had finished by the time the CPU
      became free, or had not arrived when the entry began (fimDe[j] is
      process j's finish time). */
  ghost predicate EsperaForcada(procs: seq<Processo>, fimDe: seq<int>, trace: seq<Intervalo>, m: nat, j: nat)
    requires m < |trace| && j < |procs| && |fimDe| == |procs|
  {
    LivreTrace(trace, m) < trace[m].inicio ==>
      fimDe[j] <= LivreTrace(trace, m) || trace[m].inicio <= procs[j].tempoChegada
  }

  /** Every idle gap before a trace entry was forced, for every process. */
  ghost predicate OciosidadeJustificada(procs: seq<Processo>, fimDe: seq<int>, trace: seq<Intervalo>)
    requires |fimDe| == |procs|
  {
    forall m, j :: 0 <= m < |trace| && 0 <= j < |procs| ==> EsperaForcada(procs, fimDe, trace, m, j)
  }

  /** The start time the C code reports for process i when "not started yet"
      is tested as start == 0 (src/simulador.c:155, 263): the earliest
      positive time at which i held the CPU, or 0 when it only ran at time 0. */
  ghost predicate InicioSentinela(trace: seq<Intervalo>, donos: seq<nat>, i: nat, ini: int)
    requires |trace| == |donos|
  {
    && ini >= 0
    && (forall m :: 0 <= m < |trace| && donos[m] == i && trace[m].inicio > 0 ==> ini <= trace[m].inicio)
    && (ini > 0 ==> exists m :: 0 <= m < |trace| && donos[m] == i && trace[m].inicio == ini)
    && (ini == 0 ==> forall m :: 0 <= m < |trace| && donos[m] == i ==> trace[m].inicio == 0)
  }

  /** The start time recorded for process i by a run that produces `trace`,
      with the C test "not started yet" written as start == 0
      (src/simulador.c:155-158 and 263-265): the first entry of i found while
      the recorded value is still 0 sets it to that entry's start. */
  function InicioRegistrado(trace: seq<Intervalo>, donos: seq<nat>, i: nat): int
    requires |trace| == |donos|
  {
    if |trace| == 0 then 0
    else
      var m := |trace| - 1;
      var r := InicioRegistrado(trace[..m], donos[..m], i);
      if r == 0 && donos[m] == i then trace[m].inicio else r
  }

  /** The recorded start is what the sentinel makes of the first run: the
      earliest positive start of process i, or 0 when i only ran at time 0
      (or never ran). */
  lemma {:induction false} InicioRegistradoSentinela(trace: seq<Intervalo>, donos: seq<nat>, i: nat)
    requires |trace| == |donos|
    requires forall m :: 0 <= m < |trace| ==> 0 <= trace[m].inicio < trace[m].fim
    requires forall m, l :: 0 <= m < l < |trace| ==> trace[m].fim <= trace[l].inicio
    ensures InicioSentinela(trace, donos, i, InicioRegistrado(trace, donos, i))
  {
    if |trace| > 0 {
      var m := |trace| - 1;
      var p, d := trace[..m], donos[..m];
      assert forall k :: 0 <= k < m ==> p[k] == trace[k];
      InicioRegistradoSentinela(p, d, i);
      SentinelaExtende(trace, donos, i);
    }
  }

  /** The step of the induction above: the last entry of a trace. */
  lemma SentinelaExtende(trace: seq<Intervalo>, donos: seq<nat>, i: nat)
    requires 0 < |trace| == |donos|
    requires 0 <= trace[|trace| - 1].inicio
    requires forall k :: 0 <= k < |trace| - 1 ==> trace[k].fim <= trace[|trace| - 1].inicio
    requires forall k :: 0 <= k < |trace| - 1 ==> trace[k].inicio < trace[k].fim
    requires InicioSentinela(trace[..|trace| - 1], donos[..|trace| - 1], i,
                             InicioRegistrado(trace[..|trace| - 1], donos[..|trace| - 1], i))
    ensures InicioSentinela(trace, donos, i, InicioRegistrado(trace, donos, i))
  {
    var m := |trace| - 1;
    var p, d := trace[..m], donos[..m];
    assert forall k :: 0 <= k < m ==> p[k] == trace[k] && d[k] == donos[k];
    var r := InicioRegistrado(p, d, i);
    if r > 0 {
      var k :| 0 <= k < m && d[k] == i && p[k].inicio == r;
      assert donos[k] == i && trace[k].inicio == r;
      assert trace[k].fim <= trace[m].inicio;
    } else if donos[m] == i {
      assert InicioRegistrado(trace, donos, i) == trace[m].inicio;
    } else {
      assert InicioRegistrado(trace, donos, i) == 0;
      forall l | 0 <= l < |trace| && donos[l] == i
        ensures trace[l].inicio == 0
      {
        assert l < m && d[l] == i;
      }
    }
  }

  // ---------------------------------------------------------------------
  // The shape of a trace under construction
  // ---------------------------------------------------------------------

  /** The shape of the trace so far: it is coherent, ends by the clock `t`,
      and served each process what its remaining work says; if the CPU has
      been idle since the last entry, no unfinished process has arrived. */
  ghost predicate Forma(procs: seq<Processo>, t: int, rest: seq<int>, fin: seq<bool>, trace: seq<Intervalo>, donos: seq<nat>)
  {
    && |rest| == |procs| && |fin| == |procs|
    && t < Horizonte(procs)
    && TraceCoerente(procs, trace, donos)
    && (forall m :: 0 <= m < |trace| ==> trace[m].fim <= t)
    && LivreTrace(trace, |trace|) <= t
    && (LivreTrace(trace, |trace|) < t ==>
          forall j :: 0 <= j < |procs| && !fin[j] ==> t <= procs[j].tempoChegada)
    && (forall i :: 0 <= i < |procs| ==> Servido(trace, donos, i) == procs[i].tempoExecucao - rest[i])
  }

  /** Running a process for d units takes d off the total remaining work,
      which stays non-negative. */
  lemma RestoDiminui(procs: seq<Processo>, rest: seq<int>, i: nat, d: int)
    requires |rest| == |procs| && i < |rest| && 0 < d <= rest[i]
    requires forall k :: 0 <= k < |procs| ==> 0 <= rest[k] <= procs[k].tempoExecucao
    ensures SomaInt(rest[i := rest[i] - d]) == SomaInt(rest) - d
    ensures 0 <= SomaInt(rest[i := rest[i] - d])
  {
    SomaIntAtualiza(rest, i, rest[i] - d);
    SomaIntLimites(rest[i := rest[i] - d], procs);
  }

  /** Running the ready process i for d units from time t, with an entry
      that reports what it has left, keeps the shape of the trace. */
  lemma FormaExtende(procs: seq<Processo>, t: int, d: int, rest: seq<int>, fin: seq<bool>,
                     trace: seq<Intervalo>, donos: seq<nat>, i: nat, rest2: seq<int>, fin2: seq<bool>,
                     t2: int, e: Intervalo, trace2: seq<Intervalo>, donos2: seq<nat>)
    requires 0 <= t && t2 == t + d < Horizonte(procs) && Forma(procs, t, rest, fin, trace, donos)
    requires Pronto(procs, fin, t, i) && 0 < d
    requires rest2 == rest[i := rest[i] - d]
    requires fin2 == (if rest[i] == d then fin[i := true] else fin)
    requires e == Intervalo(t, t + d, procs[i].pid, rest[i] - d) && trace2 == trace + [e] && donos2 == donos + [i]
    ensures Forma(procs, t2, rest2, fin2, trace2, donos2)
  {
    forall j | 0 <= j < |procs|
      ensures Servido(trace2, donos2, j) == procs[j].tempoExecucao - rest2[j]
    {
      ServidoExtende(trace, donos, e, i, j);
    }
    TraceCoerenteExtende(procs, trace, donos, e, i);
  }

  /** Before the first entry, with every process holding its whole burst. */
  lemma FormaInicial(procs: seq<Processo>, rest: seq<int>, fin: seq<bool>)
    requires |rest| == |procs| && forall i :: 0 <= i < |procs| ==> rest[i] == procs[i].tempoExecucao
    requires |fin| == |procs| && 0 <= SomaExecucao(procs)
    ensures Forma(procs, 0, rest, fin, [], [])
  {
  }

  /** Before the first entry: every finish time is still Horizonte. */
  function SemFim(procs: seq<Processo>): (r: seq<int>)
    ensures |r| == |procs| && forall j :: 0 <= j < |procs| ==> r[j] == Horizonte(procs)
  {
    seq(|procs|, _ => Horizonte(procs))
  }

  // ---------------------------------------------------------------------
  // Start times and summary tables of the preemptive simulations
  // ---------------------------------------------------------------------

  /** The recorded start times are those the zero sentinel makes of the trace. */
  ghost predicate Inicios(procs: seq<Processo>, ini: seq<int>, trace: seq<Intervalo>, donos: seq<nat>)
  {
    && |ini| == |procs| && |trace| == |donos|
    && (forall i :: 0 <= i < |procs| ==> ini[i] == InicioRegistrado(trace, donos, i))
  }

  /** Row k of the table finished before row l. */
  predicate TerminaAntes(rows: seq<Metrica>, k: nat, l: nat)
    requires k < |rows| && l < |rows|
  {
    rows[k].fim < rows[l].fim
  }

  /** The summary table so far: row k reports process ordem[k] with its
      recorded start and its finish time, and rows appear in finishing order. */
  ghost predicate Resumo(procs: seq<Processo>, t: int, ini: seq<int>, rows: seq<Metrica>, ordem: seq<nat>, fimDe: seq<int>)
  {
    && |ini| == |procs| && |fimDe| == |procs| && |rows| == |ordem|
    && (forall k :: 0 <= k < |ordem| ==> ordem[k] < |procs|)
    && (forall k :: 0 <= k < |rows| ==>
          Concluido(procs[ordem[k]], rows[k]) && rows[k].fim == fimDe[ordem[k]] && rows[k].inicio == ini[ordem[k]])
    && (forall k, l :: 0 <= k < l < |rows| ==> TerminaAntes(rows, k, l))
    && (forall k :: 0 <= k < |rows| ==> rows[k].fim <= t)
  }

  /** An idle unit leaves the table as it was. */
  lemma ResumoOcioso(procs: seq<Processo>, t: int, ini: seq<int>, rows: seq<Metrica>, ordem: seq<nat>, fimDe: seq<int>)
    requires Resumo(procs, t, ini, rows, ordem, fimDe) == true
    ensures Resumo(procs, t + 1, ini, rows, ordem, fimDe) == true
  {
  }

  /** Before the first entry: no start recorded and an empty table. */
  lemma ResumoInicial(procs: seq<Processo>, ini: seq<int>, fimDe: seq<int>)
    requires |ini| == |procs| && forall i :: 0 <= i < |procs| ==> ini[i] == 0
    requires |fimDe| == |procs|
    ensures Inicios(procs, ini, [], []) && Resumo(procs, 0, ini, [], [], fimDe)
  {
  }

  /** Appending an entry for process i keeps the recorded start times those
      of the sentinel: a start of 0 is replaced by the entry's start. */
  lemma IniciosExtende(procs: seq<Processo>, ini: seq<int>, trace: seq<Intervalo>, donos: seq<nat>,
                       e: Intervalo, i: nat, ini2: seq<int>)
    requires Inicios(procs, ini, trace, donos) && i < |procs|
    requires ini2 == (if ini[i] == 0 then ini[i := e.inicio] else ini)
    ensures Inicios(procs, ini2, trace + [e], donos + [i])
  {
    var trace2, donos2 := trace + [e], donos + [i];
    assert trace2[..|trace|] == trace && donos2[..|trace|] == donos;
  }

  /** The summary line of process p, started at `inicio` and finished at `fim`
      (src/simulador.c:183-190 and 278-288). */
  function Linha(p: Processo, inicio: int, fim: int): Metrica
  {
    Metrica(p.pid, inicio, fim, fim - p.tempoChegada, fim - p.tempoChegada - p.tempoExecucao)
  }

  /** Process i's last slice, ending at t2: its row is appended with the recorded start and
      the new clock as finish time. */
  lemma ResumoConclui(procs: seq<Processo>, t: int, t2: int, ini: seq<int>, rows: seq<Metrica>, ordem: seq<nat>,
                      fimDe: seq<int>, i: nat, ini2: seq<int>)
    requires Resumo(procs, t, ini, rows, ordem, fimDe)
    requires i < |procs| && i !in ordem && t < t2
    requires procs[i].tempoExecucao <= t2 - procs[i].tempoChegada
    requires |ini2| == |ini| && forall j :: 0 <= j < |ini| && j != i ==> ini2[j] == ini[j]
    ensures Resumo(procs, t2, ini2,
                   rows + [Linha(procs[i], ini2[i], t2)],
                   ordem + [i], fimDe[i := t2])
  {
    assert forall k :: 0 <= k < |ordem| ==> ordem[k] != i;
    var rows2 := rows + [Linha(procs[i], ini2[i], t2)];
    forall k, l | 0 <= k < l < |rows2|
      ensures TerminaAntes(rows2, k, l)
    {
      assert rows2[k] == rows[k];
      if l < |rows| {
        assert rows2[l] == rows[l] && TerminaAntes(rows, k, l);
      }
    }
  }

  /** A slice that does not finish process i leaves the table as it was. */
  lemma ResumoContinua(procs: seq<Processo>, t: int, t2: int, ini: seq<int>, rows: seq<Metrica>, ordem: seq<nat>,
                       fimDe: seq<int>, i: nat, ini2: seq<int>)
    requires Resumo(procs, t, ini, rows, ordem, fimDe)
    requires i !in ordem && t <= t2
    requires |ini2| == |ini| && forall j :: 0 <= j < |ini| && j != i ==> ini2[j] == ini[j]
    ensures Resumo(procs, t2, ini2, rows, ordem, fimDe)
  {
    assert forall k :: 0 <= k < |ordem| ==> ordem[k] != i;
  }

  /** The table lists the processes in the order in which they finished. */
  lemma ResumoCrescente(procs: seq<Processo>, t: int, ini: seq<int>, rows: seq<Metrica>, ordem: seq<nat>, fimDe: seq<int>)
    requires Resumo(procs, t, ini, rows, ordem, fimDe)
    ensures forall k, l :: 0 <= k < l < |rows| ==> rows[k].fim < rows[l].fim
  {
    forall k, l | 0 <= k < l < |rows|
      ensures rows[k].fim < rows[l].fim
    {
      assert TerminaAntes(rows, k, l);
    }
  }
}
