# Verified model of the process-scheduling simulator

EscalonadorDeProcessos is a small C program with a GTK interface. The user
builds a list of processes, each with a pid, an arrival time, a burst and a
priority. The program then simulates four CPU schedulers over that list:

- FIFO;
- non-preemptive Shortest Job First;
- Round-Robin with a quantum of 2;
- preemptive Priority.

Each simulation reports a table with one line per process: pid, start,
finish, turnaround and waiting time. The two preemptive ones also report a
step-by-step trace. This project models the process list (src/processos.c)
and the four simulations (src/simulador.c) in Dafny and proves what each
computes.

Modules, one per file:

- `Processos` (processos.dfy): the record `Processo` and the class
  `ListaProcessos`, which holds the heap block `lista` and the count `n`.
  Insertion, lookup, removal and reset are methods that change those fields.
  `SemPrimeiro` is an independent reference definition of "remove the first
  process with this pid".
- `Escalonamento` (escalonamento.dfy): the parts the simulations share.
  - The table row `Metrica` and the trace entry `Intervalo`.
  - The scan `EscolherMenor` that SJF and Priority use to pick a process.
  - Counting lemmas that tie the C counters to the per-process flags.
  - The predicates that say what a correct preemptive trace and summary
    table are.
  - The meaning of the "start == 0 means not started" sentinel.
- `Fifo` (fifo.dfy): the in-place bubble sort of the caller's array, then
  the metrics loop.
- `Sjf` (sjf.dfy): the SJF loop.
- `RoundRobin` (round_robin.dfy): the Round-Robin loop. It is written twice.
  - The imperative methods use the C arrays.
  - Ghost functions (`Fatiar`, `Varrer`, `Volta`, `Voltas`) say which state
    each slice, pass and number of passes produces.
  - The methods are proved to track those functions, the invariant is
    proved along the functions, and the result follows at the end.
- `Prioridade` (prioridade.dfy): the Priority loop, one time unit per
  decision.

The C functions write text into a caller's buffer. In the model they return
the same content as data:

- The table is a `seq<Metrica>`.
- The Round-Robin and Priority traces are a `seq<Intervalo>`. Round-Robin
  prints "Tempo s-f: PID p (restante: r)". Priority prints
  "Tempo t: PID p (restante: r)", which becomes `Intervalo(t, t+1, p, r)`.
- The fixed header strings are constants.

A simulation may return ghost outputs for its proof:

- `ordem`: the index of the process behind each table row. Pids need not be
  unique.
- `donos`: the index behind each trace entry.
- `fimDe`: each process's finish time.

The headline contracts:

- FIFO leaves the array sorted by arrival. The sort is a permutation and
  stable, and the stable sorted order is unique. Each row is a run to
  completion that starts when the CPU frees up, or at the arrival if that is
  later.
- SJF reports every process exactly once. Each row is a run to completion
  of the ready process with the smallest burst, the lowest index winning
  ties. The CPU idles only while no unfinished process has arrived.
- Round-Robin and Priority produce a coherent trace:
  - entries are in time order, each names its process, and each reports
    what that process has left;
  - every process is served exactly its burst;
  - every idle gap was forced;
  - every entry is the scheduler's decision: for Round-Robin, a slice of at
    most the quantum, given to the next ready process in the cyclic scan
    order; for Priority, one unit for the ready process of lowest priority,
    again with the lowest index on ties.
  - The table has one row per process, in finishing order. Each row has the
    finish time, turnaround and waiting time from the trace, and the start
    time the zero sentinel of the C code records.

## Model

| member | source | states |
|---|---|---|
| Processos.ListaProcessos.constructor | src/main.c:18-19 | The program starts with a null list and zero processes. |
| Processos.ListaProcessos.Inserir | src/processos.c:19-30 | If the reallocation fails, the list and count are unchanged. Otherwise the count grows by one and the contents are the old contents plus `novo` at the end, in a fresh block. |
| Processos.ListaProcessos.Procurar | src/processos.c:46-54 | The position is the first index holding `pid`. It is -1 exactly when no process in the list has that pid. |
| Processos.PrimeiraPosicaoCorreta | src/processos.c:49-54 | The scan result is -1 exactly when the pid is absent. Otherwise it holds the pid and no earlier index does. |
| Processos.ListaProcessos.Remover | src/processos.c:45-66 | Returns the first position of `pid`, or -1. If it is -1, the list and count are unchanged. Otherwise exactly that element is gone, the rest keep their order, and the count drops by one. The contents equal the reference removal `SemPrimeiro`. |
| Processos.SemPrimeiroCorta | src/processos.c:56-66 | Removing the first match deletes exactly the element at the first matching position. Later duplicates stay. With no match, nothing changes. |
| Processos.SemPrimeiroMultiset | src/processos.c:56-66 | Removal shortens the list by one exactly when the pid is present, and takes out one copy of the first match. Otherwise the length is kept. |
| Processos.DeslocarEsquerda | src/processos.c:61-64 | Every element after `pos` among the first `m` moves one place left. Elements from `m - 1` on are untouched. |
| Processos.ListaProcessos.Reinicializar | src/processos.c:33-39 | Whatever the list held, afterwards the block is null, the count is 0 and the contents are empty. |
| Escalonamento.ContaFalsosZero | src/simulador.c:74 | The count of unfinished processes is zero exactly when every flag is set, which is the exit test of the loops. |
| Escalonamento.ContaFalsosMarca | src/simulador.c:109-110 | Marking one unfinished process lowers the count by exactly one. |
| Escalonamento.ContaFalsosNenhum | src/simulador.c:66-67 | With no flag set, all n processes count as unfinished. |
| Escalonamento.SomaIntLimites | src/simulador.c:171 | Remaining work between 0 and the bursts sums to at most the total burst. The sum is 0 exactly when no process has work left. |
| Escalonamento.SomaIntAtualiza | src/simulador.c:273 | Changing one process's remaining work changes the total by the difference. |
| Escalonamento.SomaIntExecucoes | src/simulador.c:125-127 | The initial copy of the bursts sums to the total burst. |
| Escalonamento.MaxChegada | src/simulador.c:89-92 | An upper bound on every arrival time, and at least 0. It bounds the idle units a run can spend. |
| Escalonamento.EscolherMenor | src/simulador.c:75-86 | Returns -1 exactly when no ready process has a key below INT_MAX. Otherwise the index is ready, its key is the least among ready processes, and every ready process before it has a strictly larger key. |
| Escalonamento.OciosoAntesDaUltimaChegada | src/simulador.c:89-92 | If the scan finds nothing while a process is unfinished, every unfinished process arrives later than the clock, and the clock is below the latest arrival. |
| Escalonamento.InicioRegistradoSentinela | src/simulador.c:155-158 | The start recorded under the zero sentinel is the earliest positive start of the process in the trace. It is 0 only if the process ran only at time 0, or never ran. |
| Escalonamento.TraceCoerenteExtende | src/simulador.c:174-179 | Logging a slice that starts after the CPU frees up, and reports the burst minus all that was served, keeps the trace coherent. |
| Escalonamento.FormaExtende | src/simulador.c:161-179 | Running a ready process for d units from the clock keeps the trace shape. The trace still ends at the clock and still accounts for each process's remaining work. |
| Escalonamento.RestoDiminui | src/simulador.c:171 | A slice of d units takes exactly d off the total remaining work, which stays non-negative. |
| Escalonamento.IniciosExtende | src/simulador.c:263-265 | Replacing a zero start by the new entry's start keeps the recorded starts equal to what the sentinel yields on the longer trace. |
| Escalonamento.ResumoConclui | src/simulador.c:182-198 | Appending the finished process's line keeps the table valid. The line has the recorded start, the clock as finish, and turnaround and waiting time from the finish. The table stays in finishing order. |
| Escalonamento.ResumoCrescente | src/simulador.c:194 | The table lists processes in strictly increasing finish time. |
| Fifo.TrocaVizinhosEstavel | src/simulador.c:30-34 | Swapping neighbours with different arrival times keeps the relative order within every arrival time, so the strict comparison makes the sort stable. |
| Fifo.TrocadoMultiset | src/simulador.c:31-33 | A swap is a permutation. |
| Fifo.OrdenacaoEstavelUnica | src/simulador.c:28-36 | Two lists sorted by arrival with the same order within each arrival time are equal. The schedule FIFO runs therefore depends on the input alone. |
| Fifo.Trocar | src/simulador.c:31-33 | The array afterwards is the old one with positions j and j+1 exchanged. |
| Fifo.Borbulhar | src/simulador.c:29-35 | An inner pass over the first m elements moves the latest arrival among them to position m-1. It leaves the rest untouched, and is a stable permutation. |
| Fifo.OrdenarPorChegada | src/simulador.c:28-36 | The array ends sorted by arrival, is a permutation of the original, and keeps the original order within every arrival time. |
| Fifo.MetricasFifo | src/simulador.c:38-60 | One row per process, in list order. Each row is a run to completion with turnaround and waiting time. Each starts when the CPU frees up, and later only when that is the process's arrival. |
| Fifo.SimularFifo | src/simulador.c:19-61 | The caller's array is stably sorted by arrival and permuted. Each row reports the process at its position, as above. |
| Sjf.EstadoSjfOcioso | src/simulador.c:89-92 | An idle unit keeps the SJF invariant when no unfinished process has arrived. |
| Sjf.EstadoSjfExecuta | src/simulador.c:94-110 | Running the scan's choice to completion keeps the invariant, with the clock at its finish. |
| Sjf.SimularSjf | src/simulador.c:64-114 | One row per process, each process reported exactly once. Each row is a run to completion of the ready process with the smallest burst at that moment, the lowest index winning ties. It starts when the CPU is free. The CPU idles only while no unfinished process has arrived. |
| RoundRobin.Duracao | src/simulador.c:161 | A slice lasts the quantum or what is left, whichever is less. |
| RoundRobin.ProntoSeRestante | src/simulador.c:150 | The test "work left and arrived" is readiness: work left means not finished. |
| RoundRobin.FatiarPronto | src/simulador.c:151-198 | A slice of a ready process starts at the clock and lasts d. It finishes the process, appends its line and counts it off exactly when it takes all that was left. |
| RoundRobin.PassoNovo | src/simulador.c:148-179 | The new slice satisfies `PassoRR`. It lasts at most the quantum, goes to a ready process, and every process the cyclic scan passed over was not ready then. |
| RoundRobin.ContasAvanca | src/simulador.c:168-197 | A slice keeps the counters. The total remaining work goes down, the finishing order grows by the process exactly when it finishes, and the clock stays below the horizon. |
| RoundRobin.EscolhasAvanca | src/simulador.c:148-198 | A slice keeps every earlier decision valid, adds a valid one, and keeps idle gaps justified and finish times consistent. |
| RoundRobin.FatiarPreserva | src/simulador.c:151-198 | A slice of the process the scan reached keeps the loop invariant. The pass goes on with it as the latest entry, and the remaining work goes down. |
| RoundRobin.PulaPreserva | src/simulador.c:150 | Passing over a process that is not ready keeps the scan position valid. |
| RoundRobin.VarrerPreserva | src/simulador.c:148-200 | The rest of a pass keeps the invariant and visits every process. Either nothing ran and the state is unchanged, or the remaining work went down. |
| RoundRobin.Ocioso | src/simulador.c:203-205 | A pass in which nobody ran happens only while the clock is below the latest arrival. The clock moves by one and the invariant is kept. |
| RoundRobin.VoltaPreserva | src/simulador.c:145-206 | A pass with something unfinished keeps the invariant. The remaining work goes down, or stays while the clock moves closer to the latest arrival, so the loop ends. |
| RoundRobin.VoltasPreserva | src/simulador.c:145-206 | The invariant holds after any number of passes from a state satisfying it. |
| RoundRobin.VoltaAvanca | src/simulador.c:145-206 | While a process is unfinished, each pass decreases the termination measure of the outer loop. |
| RoundRobin.EstadoInicial | src/simulador.c:119-142 | The start state satisfies the invariant, and the first pass starts from it. |
| RoundRobin.EstadoFinal | src/simulador.c:208-210 | With every process finished, the invariant gives all of the properties below. |
| RoundRobin.VoltasFim | src/simulador.c:145-210 | Once no process is left after k passes from the start, the state has every property of SimularRoundRobin. |
| RoundRobin.Fatia | src/simulador.c:151-198 | The C variables after a slice hold the state `Fatiar` gives. |
| RoundRobin.UmaVolta | src/simulador.c:146-205 | The C variables after one pass hold the state `Volta` gives. |
| RoundRobin.Voltear | src/simulador.c:145-206 | The loop stops with no process left, in the state k passes of `Volta` give. |
| RoundRobin.SimularRoundRobin | src/simulador.c:117-216 | The trace is coherent and serves every process exactly its burst. Every entry is a round-robin decision (`PassoRR`) and every idle gap was forced. Each process finishes by the end of the trace. The table has one row per process in finishing order, with the finish from the trace and the start the zero sentinel records. |
| Prioridade.ContasExecuta | src/simulador.c:272-292 | One unit of work keeps the counters. The total remaining work drops by one. |
| Prioridade.EscolhasExecuta | src/simulador.c:247-292 | The new unit is a valid priority decision at its time, and the earlier decisions stay valid. |
| Prioridade.EstadoOcioso | src/simulador.c:257-260 | An idle unit keeps the invariant when no unfinished process has arrived. |
| Prioridade.PassoOcioso | src/simulador.c:257-260 | An idle unit keeps the invariant and moves the clock one unit closer to the latest arrival. |
| Prioridade.PassoExecuta | src/simulador.c:262-293 | Running the scan's choice for one unit keeps the invariant, and the remaining work goes down. |
| Prioridade.Executar | src/simulador.c:262-293 | The arrays, the clock, the counter, the trace and the table after one unit are those the C code computes. |
| Prioridade.ExecutarPasso | src/simulador.c:262-293 | One unit keeps the invariant and the unfinished count, and the remaining work goes down. |
| Prioridade.Passo | src/simulador.c:242-294 | One pass keeps the invariant. The remaining work goes down, or stays while the clock approaches the latest arrival. |
| Prioridade.EstadoInicial | src/simulador.c:219-239 | The initial arrays satisfy the invariant with every process unfinished. |
| Prioridade.EstadoFinal | src/simulador.c:294-297 | With every process finished, the invariant gives all of the properties below. |
| Prioridade.Repetir | src/simulador.c:242-294 | The loop ends with every process finished and the invariant holding. |
| Prioridade.SimularPrioridade | src/simulador.c:218-303 | The trace has exactly the total burst of one-unit entries and is coherent. Each entry went to the ready process of lowest priority, the lowest index winning ties. Every idle gap was forced and each process is served its burst. The table has one row per process in finishing order, with the finish from the trace and the start the zero sentinel records. |

## Left out

- Text output: the formatting with `snprintf`/`strcat` is not modelled. The
  model returns rows and trace entries, and the headers are constants. The
  possible overflow of the fixed buffers (4096 bytes in
  src/interface.c:262, 2048 for the summaries) is not modelled.
- Memory management: `malloc`, `calloc` and `free` become Dafny arrays.
  `inserir_processo` copies into a fresh array, and a reallocation failure
  is the parameter `falhaAlocacao`.
- Processos.ListaProcessos.Remover: keeps the same block after the shift.
  The shrinking `realloc` of src/processos.c:68-75 is not modelled, nor its
  result when the list becomes empty or the reallocation fails.
- Integer width: `int` is unbounded. The 32-bit overflow of the C clock and
  counters is not modelled. `INT_MAX` appears only as the start value of the
  scans.
- Sjf.SimularSjf: requires every burst below INT_MAX. A process whose burst
  is INT_MAX is never picked by the scan, and the C loop then does not end.
- Prioridade.SimularPrioridade: requires bursts above 0 and priorities
  below INT_MAX. Without them the C loop does not end: a burst of 0 or less
  is never brought to exactly 0, and a priority of INT_MAX is never picked.
- RoundRobin.SimularRoundRobin: requires bursts above 0. A process with a
  burst of 0 or less never passes the test of src/simulador.c:150, so it is
  never counted off.
- The Round-Robin quantum is a parameter `q > 0` of the functions and
  lemmas, and the simulation uses it at 2. The second `max` with the
  arrival (src/simulador.c:156 and 164) is modelled as written, though the
  guard of line 150 makes the clock the larger value.
- The zero-sentinel start (src/simulador.c:155, 263) is modelled as written,
  not as the first start. A process that first runs at time 0 and runs again
  later reports the later start. `InicioRegistradoSentinela` states exactly
  what is reported.
- The graphical interface (src/interface.c, src/main.c) and the GTK calls
  are not part of this model.
