/**
 * The process descriptor and the process list of the scheduler simulator
 * (src/processos.h, src/processos.c).
 *
 * The list is a heap block holding `n` descriptors. The C code passes the
 * block and the count by pointer and reallocates the block on every insert;
 * here the block is the field `lista` (null before the first insert and after
 * a reset, as the C pointer is) and the count is the field `n`.
 */
module Processos {

  /** One process (struct Processo). A lower `prioridade` is more urgent. */
  datatype Processo = Processo(pid: int, tempoChegada: int, tempoExecucao: int, prioridade: int)

  /** Index of the first process of `s` whose pid is `pid`, or -1 when none has it. */
  function PrimeiraPosicao(s: seq<Processo>, pid: int): (r: int)
    ensures -1 <= r < |s|
  {
    if |s| == 0 then -1
    else if s[0].pid == pid then 0
    else
      var r := PrimeiraPosicao(s[1..], pid);
      if r == -1 then -1 else r + 1
  }

  /** The position found is -1 exactly when no process has the pid, and
      otherwise the lowest index holding it. */
  lemma {:induction false} PrimeiraPosicaoCorreta(s: seq<Processo>, pid: int)
    ensures PrimeiraPosicao(s, pid) == -1 <==> forall k :: 0 <= k < |s| ==> s[k].pid != pid
    ensures PrimeiraPosicao(s, pid) >= 0 ==>
      s[PrimeiraPosicao(s, pid)].pid == pid &&
      forall k :: 0 <= k < PrimeiraPosicao(s, pid) ==> s[k].pid != pid
  {
    if |s| > 0 && s[0].pid != pid {
      PrimeiraPosicaoCorreta(s[1..], pid);
      assert forall k :: 1 <= k < |s| ==> s[k] == s[1..][k - 1];
    }
  }

  /** Reference definition of "remove the first process with this pid":
      walk the list, drop the first match, keep everything else in order. */
  function SemPrimeiro(s: seq<Processo>, pid: int): seq<Processo>
  {
    if |s| == 0 then []
    else if s[0].pid == pid then s[1..]
    else [s[0]] + SemPrimeiro(s[1..], pid)
  }

  /** Removing the first match deletes exactly the element at the first matching
      position; every other element, later duplicates of the pid included, keeps
      its relative order. Without a match nothing changes. */
  lemma {:induction false} SemPrimeiroCorta(s: seq<Processo>, pid: int)
    ensures PrimeiraPosicao(s, pid) == -1 ==> SemPrimeiro(s, pid) == s
    ensures PrimeiraPosicao(s, pid) >= 0 ==>
      SemPrimeiro(s, pid) == s[..PrimeiraPosicao(s, pid)] + s[PrimeiraPosicao(s, pid) + 1..]
  {
    if |s| > 0 && s[0].pid != pid {
      var t := s[1..];
      SemPrimeiroCorta(t, pid);
      var q := PrimeiraPosicao(t, pid);
      assert s == [s[0]] + t;
      if q >= 0 {
        assert s[..q + 1] == [s[0]] + t[..q];
        assert s[q + 2..] == t[q + 1..];
      }
    } else if |s| > 0 {
      assert s[..0] + s[1..] == s[1..];
    }
  }

  /** Removal shortens the list by one exactly when some process has the pid,
      and what is removed is one copy of that first match. */
  lemma {:induction false} SemPrimeiroMultiset(s: seq<Processo>, pid: int)
    ensures PrimeiraPosicao(s, pid) >= 0 ==>
      |SemPrimeiro(s, pid)| == |s| - 1 &&
      multiset(SemPrimeiro(s, pid)) + multiset{s[PrimeiraPosicao(s, pid)]} == multiset(s)
    ensures PrimeiraPosicao(s, pid) == -1 ==> |SemPrimeiro(s, pid)| == |s|
  {
    SemPrimeiroCorta(s, pid);
    var p := PrimeiraPosicao(s, pid);
    if p >= 0 {
      assert s == s[..p] + [s[p]] + s[p + 1..];
    }
  }

  /** The global process list (lista_processos, n_processos). */
  class ListaProcessos {
    var lista: array?<Processo>
    var n: nat

    ghost predicate Valid()
      reads this
    {
      (lista == null ==> n == 0) && (lista != null ==> n <= lista.Length)
    }

    /** The processes currently in the list, in list order. */
    ghost function Conteudo(): seq<Processo>
      reads this, lista
      requires Valid()
    {
      if lista == null then [] else lista[..n]
    }

    /** The program starts with a null list and a zero count (src/main.c:18-19). */
    constructor ()
      ensures Valid() && lista == null && n == 0 && Conteudo() == []
    {
      lista := null;
      n := 0;
    }

    /** inserir_processo: reallocate the block to n + 1 slots, store `novo` in the
        last one and bump the count. `falhaAlocacao` stands for realloc
        returning NULL, in which case the list and the count are kept. */
    method Inserir(novo: Processo, falhaAlocacao: bool)
      requires Valid()
      modifies this
      ensures Valid()
      ensures falhaAlocacao ==> lista == old(lista) && n == old(n) && Conteudo() == old(Conteudo())
      ensures !falhaAlocacao ==> n == old(n) + 1 && Conteudo() == old(Conteudo()) + [novo]
      ensures !falhaAlocacao ==> fresh(lista)
    {
      if falhaAlocacao {
        return;
      }
      var nova := new Processo[n + 1];
      if lista != null {
        forall k | 0 <= k < n {
          nova[k] := lista[k];
        }
      }
      nova[n] := novo;
      lista := nova;
      n := n + 1;
    }

    /** The search loop of remover_processo (src/processos.c:49-54): the
        position of the first process with `pid`, or -1. */
    method Procurar(pid: int) returns (pos: int)
      requires Valid()
      ensures pos == PrimeiraPosicao(Conteudo(), pid)
      ensures pos == -1 <==> forall k :: 0 <= k < n && lista != null ==> lista[k].pid != pid
      ensures pos >= 0 ==> lista != null && pos < n && lista[pos].pid == pid &&
                           forall k :: 0 <= k < pos ==> lista[k].pid != pid
    {
      PrimeiraPosicaoCorreta(Conteudo(), pid);
      pos := -1;
      if lista == null {
        return;
      }
      var i := 0;
      while i < n
        invariant 0 <= i <= n
        invariant forall k :: 0 <= k < i ==> lista[k].pid != pid
      {
        if lista[i].pid == pid {
          pos := i;
          return;
        }
        i := i + 1;
      }
    }

    /** remover_processo: find the first process with `pid`; if there is one,
        shift the rest of the list one place to the left and drop the count.
        Returns the position removed, or -1 when no process has `pid`. */
    method Remover(pid: int) returns (pos: int)
      requires Valid()
      modifies this, lista
      ensures Valid() && lista == old(lista)
      ensures pos == PrimeiraPosicao(old(Conteudo()), pid)
      ensures pos == -1 ==> n == old(n) && Conteudo() == old(Conteudo())
      ensures pos >= 0 ==>
        n == old(n) - 1 && Conteudo() == old(Conteudo())[..pos] + old(Conteudo())[pos + 1..]
      ensures Conteudo() == SemPrimeiro(old(Conteudo()), pid)
    {
      SemPrimeiroCorta(Conteudo(), pid);
      pos := Procurar(pid);
      if pos == -1 {
        return;
      }
      DeslocarEsquerda(lista, pos, n);
      n := n - 1;
    }

    /** reinicializar_lista: release the block, set the pointer to null and the
        count to zero, whatever the list held before. */
    method Reinicializar()
      requires Valid()
      modifies this
      ensures Valid() && lista == null && n == 0 && Conteudo() == []
    {
      if lista != null {
        lista := null;
      }
      n := 0;
    }
  }

  /** The shifting loop of remover_processo (src/processos.c:62-64): every
      element after `pos` among the first `m` moves one place to the left. */
  method DeslocarEsquerda(a: array<Processo>, pos: nat, m: nat)
    requires pos < m <= a.Length
    modifies a
    ensures a[..m - 1] == old(a[..m])[..pos] + old(a[..m])[pos + 1..]
    ensures a[m - 1..] == old(a[m - 1..])
  {
    ghost var antigo := a[..];
    var i := pos;
    while i < m - 1
      invariant pos <= i <= m - 1
      invariant forall k :: 0 <= k < pos ==> a[k] == antigo[k]
      invariant forall k :: pos <= k < i ==> a[k] == antigo[k + 1]
      invariant forall k :: i <= k < a.Length ==> a[k] == antigo[k]
    {
      a[i] := a[i + 1];
      i := i + 1;
    }
    assert a[..m - 1] == antigo[..m][..pos] + antigo[..m][pos + 1..];
  }
}
