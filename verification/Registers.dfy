/** The temporary-register allocator of src/compiler/ast/FunctionKind.cpp. A function with n
    symbols owns registers 1..n; temporaries are numbered from n + 1. */
module Registers {

  /** Entry k tells whether temporary n + 1 + k is free. */
  type Pool = seq<bool>

  function FirstFree(p: Pool): (k: nat)
    ensures k <= |p| && (k < |p| ==> p[k])
    ensures forall j :: 0 <= j < k ==> !p[j]
  {
    if p == [] || p[0] then 0 else 1 + FirstFree(p[1..])
  }

  /** The register the next request is given. */
  function Taken(n: nat, p: Pool): nat { n + 1 + FirstFree(p) }

  function Take(p: Pool): Pool {
    if FirstFree(p) < |p| then p[FirstFree(p) := false] else p + [false]
  }

  function Release(n: nat, p: Pool, r: nat): Pool {
    if r > n && r - n - 1 < |p| then p[r - n - 1 := true] else p
  }

  /** Register r is a temporary nobody holds. */
  predicate Free(n: nat, p: Pool, r: nat) { r > n && (r - n - 1 >= |p| || p[r - n - 1]) }

  lemma TakeFrees(n: nat, p: Pool, r: nat)
    ensures Free(n, p, Taken(n, p)) && (Free(n, Take(p), r) <==> Free(n, p, r) && r != Taken(n, p))
  {
  }

  lemma ReleaseFrees(n: nat, p: Pool, r: nat, q: nat)
    ensures Free(n, Release(n, p, r), q) <==> Free(n, p, q) || (q == r && r > n)
  {
  }

  /** The number of temporaries in use. */
  function Used(p: Pool): nat { if p == [] then 0 else (if p[0] then 0 else 1) + Used(p[1..]) }

  lemma {:induction false} UsedUpdate(p: Pool, k: nat, b: bool)
    requires k < |p|
    ensures Used(p[k := b]) == Used(p) + (if p[k] then 1 else 0) - (if b then 1 else 0)
  {
    if k > 0 {
      assert p[k := b][1..] == p[1..][k - 1 := b];
      UsedUpdate(p[1..], k - 1, b);
    } else {
      assert p[k := b][1..] == p[1..];
    }
  }

  lemma {:induction false} UsedConcat(p: Pool, q: Pool)
    ensures Used(p + q) == Used(p) + Used(q)
  {
    if p == [] {
      assert p + q == q;
    } else {
      assert (p + q)[1..] == p[1..] + q;
      UsedConcat(p[1..], q);
    }
  }

  lemma {:induction false} UsedBounds(p: Pool)
    ensures Used(p) <= |p| && (FirstFree(p) < |p| <==> Used(p) < |p|)
  {
    if p != [] {
      UsedBounds(p[1..]);
    }
  }

  function Max(a: nat, b: nat): nat { if a >= b then a else b }

  /** The table grows only when every temporary is in use. */
  lemma TakeSize(p: Pool)
    ensures Used(Take(p)) == Used(p) + 1 && |Take(p)| == Max(|p|, Used(p) + 1)
  {
    UsedBounds(p);
    if FirstFree(p) < |p| {
      UsedUpdate(p, FirstFree(p), false);
    } else {
      UsedConcat(p, [false]);
    }
  }

  lemma ReleaseSize(n: nat, p: Pool, r: nat)
    ensures |Release(n, p, r)| == |p|
    ensures Used(Release(n, p, r)) == Used(p) - (if r > n && !Free(n, p, r) then 1 else 0)
  {
    if r > n && r - n - 1 < |p| {
      UsedUpdate(p, r - n - 1, true);
    }
  }

  // ----- any history of requests -----

  datatype Request = Acquire | GiveBack(r: nat)

  function Serve(n: nat, p: Pool, q: Request): Pool {
    if q.Acquire? then Take(p) else Release(n, p, q.r)
  }

  function ServeAll(n: nat, p: Pool, qs: seq<Request>): Pool
    decreases |qs|
  {
    if qs == [] then p else ServeAll(n, Serve(n, p, qs[0]), qs[1..])
  }

  /** The largest number of temporaries in use at once. */
  function Peak(n: nat, p: Pool, qs: seq<Request>): nat
    decreases |qs|
  {
    if qs == [] then Used(p) else Max(Used(p), Peak(n, Serve(n, p, qs[0]), qs[1..]))
  }

  /** After any history the table is exactly as large as it started or as the peak demand was,
      whichever is more; a new function's starts empty. */
  lemma {:induction false} TableSizeIsPeak(n: nat, p: Pool, qs: seq<Request>)
    ensures |ServeAll(n, p, qs)| == Max(|p|, Peak(n, p, qs))
    decreases |qs|
  {
    UsedBounds(p);
    if qs != [] {
      TakeSize(p);
      if qs[0].GiveBack? {
        ReleaseSize(n, p, qs[0].r);
      }
      TableSizeIsPeak(n, Serve(n, p, qs[0]), qs[1..]);
    }
  }

  /** A request is never served with a register in use. */
  lemma NeverSharesRegister(n: nat, p: Pool, qs: seq<Request>, r: nat)
    requires r > n && !Free(n, ServeAll(n, p, qs), r)
    ensures Taken(n, ServeAll(n, p, qs)) != r
  {
    TakeFrees(n, ServeAll(n, p, qs), r);
  }

  class FunctionKind<F> {
    var symbolTable: map<string, nat>
    var registerTable: map<nat, bool>
    /** Functions met in the body, to be compiled after it. */
    var functionsToCompile: seq<F>

    /** The table's keys are the contiguous range after the symbols. */
    ghost predicate Valid()
      reads this`symbolTable, this`registerTable
    {
      forall k: nat :: k in registerTable <==> |symbolTable| < k <= |symbolTable| + |registerTable|
    }

    ghost function Temporaries(): Pool
      reads this`symbolTable, this`registerTable
      requires Valid()
    {
      var first, table := |symbolTable| + 1, registerTable;
      seq(|table|, (k: nat) requires first + k in table => table[first + k])
    }

    constructor (symbols: map<string, nat>)
      ensures Valid() && symbolTable == symbols && registerTable == map[]
      ensures Temporaries() == [] && functionsToCompile == []
    {
      symbolTable := symbols;
      registerTable := map[];
      functionsToCompile := [];
    }

    method GetTemporary() returns (ret: nat)
      requires Valid()
      modifies this`registerTable
      ensures Valid()
      ensures ret == Taken(|symbolTable|, old(Temporaries()))
      ensures Temporaries() == Take(old(Temporaries()))
    {
      ghost var pool := Temporaries();
      var size := |symbolTable| + 1;
      var i := 0;
      while i < |registerTable|
        invariant 0 <= i <= |registerTable|
        invariant registerTable == old(registerTable)
        invariant FirstFree(pool) >= i
      {
        var index := i + size;
        if registerTable[index] {
          assert pool[i];
          registerTable := registerTable[index := false];
          assert registerTable.Keys == old(registerTable).Keys;
          assert |registerTable| == |registerTable.Keys|;
          assert Temporaries() == pool[i := false];
          return index;
        }
        assert !pool[i];
        NotFirst(pool, i);
        i := i + 1;
      }
      ret := |registerTable| + |symbolTable| + 1;
      registerTable := registerTable[ret := false];
      assert Temporaries() == pool + [false];
    }

    method FreeRegister(index: nat)
      requires Valid()
      modifies this`registerTable
      ensures Valid()
      ensures Temporaries() == Release(|symbolTable|, old(Temporaries()), index)
    {
      if index > |symbolTable| && index in registerTable {
        registerTable := registerTable[index := true];
        assert registerTable.Keys == old(registerTable).Keys;
        assert |registerTable| == |registerTable.Keys|;
      }
      assert Temporaries() == Release(|symbolTable|, old(Temporaries()), index);
    }

    /** The register of a name, 0 if the function does not define it. */
    function Lookup(ident: string): nat
      reads this
    {
      if ident in symbolTable then symbolTable[ident] else 0
    }
  }

  lemma {:induction false} NotFirst(p: Pool, i: nat)
    requires i < |p| && !p[i] && FirstFree(p) >= i
    ensures FirstFree(p) >= i + 1
  {
  }
}
