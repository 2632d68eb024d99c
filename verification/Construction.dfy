/** What the code of a class does before its body: this is made, and the constructor's parameters
    are taken off the stack (src/compiler/Compiler.cpp:290-306). */
module Construction {
  import opened Options
  import opened Bytecode
  import opened Machine
  import opened Source
  import opened Symbols
  import opened Codegen
  import opened StmtProof
  import opened Vm
  import opened CallArguments
  import opened WholeProgram

  predicate Apart(params: seq<string>, t: Table) {
    forall i, j :: 0 <= i < j < |params| ==> RegisterOf(t, params[i]) != RegisterOf(t, params[j])
  }

  predicate IsParameter(params: seq<string>, t: Table, q: nat) {
    exists i :: 0 <= i < |params| && RegisterOf(t, params[i]) == q
  }

  /** Parameter i has what was i below the top of the stack; all are off it, and no other register
      has changed. */
  ghost predicate Took(vm: Vm, vm': Vm, params: seq<string>, t: Table) {
    && vm.Running? && vm'.Running? && vm.current < |vm.contexts| && vm'.current < |vm'.contexts|
    && |params| <= |vm.stack| && vm'.stack == vm.stack[..|vm.stack| - |params|]
    && vm'.current == vm.current && vm'.pc == vm.pc + |params|
    && (forall i :: 0 <= i < |params| ==> Held(vm', RegisterOf(t, params[i])) == vm.stack[|vm.stack| - 1 - i])
    && forall q: nat :: !IsParameter(params, t, q) ==> Held(vm', q) == Held(vm, q)
  }

  lemma OnePop(code: seq<Instr>, vm: Vm, ch: Choice, r: nat)
    requires Can(code, vm, ch) && code[vm.pc] == Instr(POP, Idx(r), NULL, NULL)
    ensures var vm' := NextState(code, vm, ch);
            && vm'.Running? && vm.stack != [] && vm'.stack == vm.stack[..|vm.stack| - 1]
            && vm'.current == vm.current < |vm'.contexts| && vm'.pc == vm.pc + 1
            && forall q: nat :: Held(vm', q) == if q == r then vm.stack[|vm.stack| - 1] else Held(vm, q)
  {
  }

  lemma {:induction false} PopsTake(code: seq<Instr>, vm: Vm, params: seq<string>, t: Table, chs: seq<Choice>)
    requires vm.Running? && vm.current < |vm.contexts| && Placed(code, vm.pc, PopArguments(params, t))
    requires Possible(code, vm, chs) && |chs| == |params| && Apart(params, t)
    ensures Took(vm, AfterAll(code, vm, chs), params, t)
    decreases |params|
  {
    hide Can;
    if params != [] {
      var r, rest := RegisterOf(t, params[0]), params[1..];
      var pop := Instr(POP, Idx(r), NULL, NULL);
      PlacedConcat(code, vm.pc, [pop], PopArguments(rest, t));
      assert code[vm.pc] == code[vm.pc..vm.pc + 1][0] == pop;
      OnePop(code, vm, chs[0], r);
      var vm1 := NextState(code, vm, chs[0]);
      PopsTake(code, vm1, rest, t, chs[1..]);
      TookMore(vm, vm1, AfterAll(code, vm, chs), params, t);
    }
  }

  lemma TookMore(vm: Vm, vm1: Vm, vm': Vm, params: seq<string>, t: Table)
    requires params != [] && Apart(params, t) && Took(vm1, vm', params[1..], t)
    requires vm.Running? && vm.stack != [] && vm1.stack == vm.stack[..|vm.stack| - 1]
    requires vm1.current == vm.current < |vm.contexts| && vm1.pc == vm.pc + 1
    requires forall q: nat :: Held(vm1, q)
               == if q == RegisterOf(t, params[0]) then vm.stack[|vm.stack| - 1] else Held(vm, q)
    ensures Took(vm, vm', params, t)
  {
    hide Held;
    var r, rest := RegisterOf(t, params[0]), params[1..];
    forall i | 0 <= i < |params|
      ensures Held(vm', RegisterOf(t, params[i])) == vm.stack[|vm.stack| - 1 - i]
    {
      if i > 0 {
        assert params[i] == rest[i - 1];
      }
    }
    forall q: nat | !IsParameter(params, t, q)
      ensures Held(vm', q) == Held(vm, q)
    {
      assert RegisterOf(t, params[0]) != q;
    }
  }

  /** Distinct parameters, none called this, have the registers after that of this. */
  lemma ParameterPlaces(c: Class, i: nat)
    requires i < |c.params| && forall j :: 0 <= j < |c.params| ==> c.params[j] != "this"
    requires forall j, k :: 0 <= j < k < |c.params| ==> c.params[j] != c.params[k]
    ensures RegisterOf(ClassTables(c).symbols, c.params[i]) == i + 2
  {
    hide AddBody;
    var t1 := AddName(map[], "this");
    AddNameKeeps(map[], "this");
    AddNamesKeeps(t1, c.params);
    NewNamesInOrder(t1, c.params, i);
    AddBodyKeeps(Tables(AddNames(t1, c.params), {}), c.body);
  }

  /** Where the run of a class is when it has made this and taken its parameters. */
  ghost predicate Constructed(c: Class, stack: seq<real>, vm: Vm) {
    && vm.Running? && vm.current == 0 < |vm.contexts| && |c.params| <= |stack|
    && vm.stack == stack[..|stack| - |c.params|]
    && Placed(CompileClass(c).code, vm.pc, CompileBody(c.body, ClassTables(c).symbols, [], [], 0).code)
    && (forall i: nat :: i < |c.params| ==>
          Held(vm, RegisterOf(ClassTables(c).symbols, c.params[i])) == stack[|stack| - 1 - i])
  }

  /** Making this. */
  lemma OneCreate(code: seq<Instr>, stack: seq<real>, ch: Choice)
    requires |code| > 2 && Can(code, Start(code, 1, stack), ch) && ch.Proceed? && code[2].op == CREATE_THIS
    ensures var vm := NextState(code, Start(code, 1, stack), ch);
            vm.Running? && vm.pc == 3 && vm.stack == stack && vm.current == 0 < |vm.contexts|
  {
    hide Translate, UnitOf, FrameRegs;
    assert stack[..|stack| - 0] == stack;
  }

  lemma ParametersApart(c: Class)
    requires forall j :: 0 <= j < |c.params| ==> c.params[j] != "this"
    requires forall j, k :: 0 <= j < k < |c.params| ==> c.params[j] != c.params[k]
    ensures Apart(c.params, ClassTables(c).symbols)
  {
    hide ClassTables, RegisterOf;
    var t := ClassTables(c).symbols;
    forall i, j | 0 <= i < j < |c.params|
      ensures RegisterOf(t, c.params[i]) != RegisterOf(t, c.params[j])
    {
      ParameterPlaces(c, i);
      ParameterPlaces(c, j);
    }
  }

  lemma ClassParts(c: Class)
    ensures var code, t := CompileClass(c).code, ClassTables(c).symbols;
            && |code| > 2 && code[2].op == CREATE_THIS && Placed(code, 3, PopArguments(c.params, t))
            && Placed(code, 3 + |c.params|, CompileBody(c.body, t, [], [], 0).code)
  {
    hide CompileBody, ClassTables, CompileFunctions, Later, PopArguments, Placed;
    var code, t := CompileClass(c).code, ClassTables(c).symbols;
    var b := CompileBody(c.body, t, [], [], 0);
    var pops, rest := PopArguments(c.params, t), CompileFunctions(Later(c.body), b.labels).code;
    var create := Instr(CREATE_THIS, NULL, NULL, NULL);
    var head := [Label(c.name), FrameHeader(|b.pool| + |t|, ClassTables(c), c.name), create];
    var tail := [RETURN_NULL, Label("end" + c.name)];
    assert code == head + pops + b.code + (tail + rest);
    PartsAt(code, head, pops, b.code, tail + rest);
    PopsSize(c.params, t);
  }

  /** Every run of a class from its header that gets as far comes to the first instruction of its
      body with parameter i holding what was i below the top of the stack, and the parameters off
      the stack, unless making this fails. */
  lemma ConstructorReceives(c: Class, stack: seq<real>, chs: seq<Choice>)
    requires forall j :: 0 <= j < |c.params| ==> c.params[j] != "this"
    requires forall j, k :: 0 <= j < k < |c.params| ==> c.params[j] != c.params[k]
    requires |CompileClass(c).code| > 1 && Possible(CompileClass(c).code, Start(CompileClass(c).code, 1, stack), chs)
    requires |chs| == |c.params| + 1 && chs[0].Proceed?
    ensures Constructed(c, stack, AfterAll(CompileClass(c).code, Start(CompileClass(c).code, 1, stack), chs))
  {
    hide CompileBody, ClassTables, CompileClass, PopArguments, Took, Placed, Apart, Start, Can;
    var code, t := CompileClass(c).code, ClassTables(c).symbols;
    ClassParts(c);
    OneCreate(code, stack, chs[0]);
    var vm1 := NextState(code, Start(code, 1, stack), chs[0]);
    ParametersApart(c);
    PopsTake(code, vm1, c.params, t, chs[1..]);
    TookMeans(vm1, AfterAll(code, vm1, chs[1..]), c.params, t);
  }

  lemma PartsAt(code: seq<Instr>, a: seq<Instr>, b: seq<Instr>, c: seq<Instr>, d: seq<Instr>)
    requires code == a + b + c + d
    ensures Placed(code, |a|, b) && Placed(code, |a| + |b|, c)
  {
  }

  lemma {:induction false} PopsSize(params: seq<string>, t: Table)
    ensures |PopArguments(params, t)| == |params|
    decreases |params|
  {
    if params != [] {
      PopsSize(params[1..], t);
    }
  }

  lemma TookMeans(vm: Vm, vm': Vm, params: seq<string>, t: Table)
    requires Took(vm, vm', params, t)
    ensures vm'.Running? && vm.Running? && |params| <= |vm.stack| && vm'.stack == vm.stack[..|vm.stack| - |params|]
    ensures vm'.current == vm.current < |vm'.contexts| && vm'.pc == vm.pc + |params|
    ensures forall i :: 0 <= i < |params| ==> Held(vm', RegisterOf(t, params[i])) == vm.stack[|vm.stack| - 1 - i]
  {
  }
}
