/** A handler stays registered while its own body runs, and the finally body after it
    (src/compiler/Compiler.cpp:197-220): what is thrown there comes back to the same handler. */
module Handlers {
  import opened Options
  import opened Bytecode
  import opened Registers
  import opened Labels
  import opened Source
  import opened Symbols
  import opened Codegen
  import opened StmtProof
  import opened Places
  import opened WholeProgram
  import opened Machine
  import opened Vm

  /** The same place with further regions around it. */
  function Around(h: seq<Word>, p: Place): Place { p.(handlers := h + p.handlers) }

  lemma AdvanceAround(i: Instr, p: Place, h: seq<Word>)
    requires i.op == CLEAR_CATCH ==> p.handlers != []
    ensures Advance(i, Around(h, p)) == Around(h, Advance(i, p))
  {
    if i.op == CLEAR_CATCH {
      assert (h + p.handlers)[..|h + p.handlers| - 1] == h + p.handlers[..|p.handlers| - 1];
    }
  }

  /** Code that ends in the unit it starts in ends no region it did not begin: the regions around
      it are around all of it. */
  lemma {:induction false} StaysAround(c: seq<Instr>, p: Place, h: seq<Word>, k: nat)
    requires After(c, p).unit == p.unit && k <= |c|
    ensures After(c[..k], Around(h, p)) == Around(h, After(c[..k], p))
    decreases |c|
  {
    hide Advance;
    if k > 0 {
      var q := Advance(c[0], p);
      UnitGrows(c[1..], q);
      AdvanceUnit(c[0], p);
      AdvanceAround(c[0], p, h);
      assert c[..k][0] == c[0] && c[..k][1..] == c[1..][..k - 1];
      StaysAround(c[1..], q, h, k - 1);
    }
  }

  lemma AdvanceUnit(i: Instr, p: Place)
    ensures Advance(i, p).unit >= p.unit
    ensures i.op == CLEAR_CATCH && p.handlers == [] ==> Advance(i, p).unit > p.unit
  {
  }

  /** What stands between SET_CATCH and CLEAR_CATCH stays in place. */
  lemma GuardedStays(s: Stmt, t: Table, ends: seq<string>, q: Pool, n: nat, p: Place)
    requires s.Try? && Named(p)
    ensures After(Guarded(s, t, ends, q, n), p) == p
  {
    hide CompileBody, After, Tag, Label, Codegen.Jump;
    var c := TryParts(s, t, ends, q, n);
    var j, lc, lf := [Codegen.Jump(Tag(FINALLY, n + 2))], [Label(Tag(CATCH, n + 1))], [Label(Tag(FINALLY, n + 2))];
    var pop := [Instr(POP, Idx(RegisterOf(t, s.exception)), NULL, NULL)];
    BodyStays(s.body, t, ends, q, n + 2, p);
    JumpStays(Tag(FINALLY, n + 2), p);
    LabelStays(CATCH, n + 1, p);
    Stay(j, lc, p);
    assert [Codegen.Jump(Tag(FINALLY, n + 2)), Label(Tag(CATCH, n + 1))] == j + lc;
    Stay(c.body.code, j + lc, p);
    StaysOne(pop[0], p);
    Stay(c.body.code + (j + lc), pop, p);
    BodyStays(s.handler, t, ends, c.body.pool, c.body.labels, p);
    Stay(c.body.code + (j + lc) + pop, c.handler.code, p);
    LabelStays(FINALLY, n + 2, p);
    Stay(c.body.code + (j + lc) + pop + c.handler.code, lf, p);
    CalmAfter([], p);
    if s.hasFinally {
      BodyStays(s.finallyBody, t, ends, c.handler.pool, c.handler.labels, p);
    }
    Stay(c.body.code + (j + lc) + pop + c.handler.code + lf, c.finallyBody.code, p);
  }

  /** The instructions of a try statement after its SET_CATCH: body, handler, finally body, and
      the CLEAR_CATCH at the end. */
  predicate Within(s: Stmt, t: Table, ends: seq<string>, q: Pool, n: nat, base: nat, pc: nat) {
    base < pc < base + |CompileStmt(s, t, ends, q, n).code|
  }

  /** From the body to the CLEAR_CATCH, handler and finally body included, the statement's own
      handler is registered. */
  lemma HandlerStays(code: seq<Instr>, base: nat, s: Stmt, t: Table, ends: seq<string>, q: Pool, n: nat, pc: nat)
    requires s.Try? && Placed(code, base, CompileStmt(s, t, ends, q, n).code) && Named(PlaceAt(code, base))
    requires Within(s, t, ends, q, n, base, pc)
    ensures var own := PlaceAt(code, base).handlers + [Name(Tag(CATCH, n + 1))];
            own <= PlaceAt(code, pc).handlers
  {
    hide CompileStmt, Guarded, Advance, Tag;
    var p, w := PlaceAt(code, base), Name(Tag(CATCH, n + 1));
    var set0, clear := Instr(SET_CATCH, w, Name(Tag(FINALLY, n + 2)), NULL), Instr(CLEAR_CATCH, NULL, NULL, NULL);
    var g := Guarded(s, t, ends, q, n);
    TryGuarded(s, t, ends, q, n);
    var bare := p.(handlers := []);
    GuardedStays(s, t, ends, q, n, bare);
    var k := pc - base - 1;
    assert code[..pc] == code[..base] + ([set0] + g[..k]) by {
      PrefixPlaced(code, base, set0, g, clear, k);
    }
    AfterConcat(code[..base], [set0] + g[..k], OUTSIDE);
    AfterConcat([set0], g[..k], p);
    AfterOne(set0, p);
    SetHandles(set0, p);
    var own := p.handlers + [w];
    assert p.(handlers := own) == Around(own, bare);
    StaysAround(g, bare, own, k);
  }

  lemma SetHandles(i: Instr, p: Place)
    requires i.op == SET_CATCH
    ensures Advance(i, p) == p.(handlers := p.handlers + [i.r0])
  {
  }

  lemma PrefixPlaced(code: seq<Instr>, base: nat, i: Instr, g: seq<Instr>, j: Instr, k: nat)
    requires Placed(code, base, [i] + g + [j]) && k <= |g|
    ensures code[..base + 1 + k] == code[..base] + ([i] + g[..k])
  {
    var c := [i] + g + [j];
    assert c[..1 + k] == [i] + g[..k];
    assert code[base..base + |c|][..1 + k] == code[base..base + 1 + k];
  }

  /** Where the catch label of a try statement stands. */
  function CatchAt(s: Stmt, t: Table, ends: seq<string>, q: Pool, n: nat, base: nat): nat
    requires s.Try?
  {
    base + 2 + |TryParts(s, t, ends, q, n).body.code|
  }

  lemma CatchFound(code: seq<Instr>, base: nat, s: Stmt, t: Table, ends: seq<string>, q: Pool, n: nat)
    requires s.Try? && Placed(code, base, CompileStmt(s, t, ends, q, n).code) && UniqueLabels(code)
    ensures Find(code, Name(Tag(CATCH, n + 1))) == Some(CatchAt(s, t, ends, q, n, base))
    ensures Within(s, t, ends, q, n, base, CatchAt(s, t, ends, q, n, base))
  {
    hide CompileBody, CompileStmt, Tag;
    TryParted(s, t, ends, q, n);
    var c, whole := TryParts(s, t, ends, q, n), CompileStmt(s, t, ends, q, n).code;
    var at := 2 + |c.body.code|;
    assert whole[at] == Label(Tag(CATCH, n + 1));
    assert code[base + at] == code[base..base + |whole|][at];
  }

  // ----- end labels have plain names -----

  predicate NamedHeaders(c: seq<Instr>) {
    forall k :: 0 <= k < |c| && c[k].op == FFRAME ==> c[k].r2.Name? && Plainly(c[k].r2.s)
  }

  lemma {:induction false} NamedAfter(c: seq<Instr>, p: Place)
    requires NamedHeaders(c) && (p.inside ==> Named(p))
    ensures After(c, p).inside ==> Named(After(c, p))
    decreases |c|
  {
    if c != [] {
      NamedAfter(c[1..], Advance(c[0], p));
    }
  }

  lemma PlacesNamed(code: seq<Instr>, pc: nat)
    requires NamedHeaders(code) && pc <= |code|
    ensures PlaceAt(code, pc).inside ==> Named(PlaceAt(code, pc))
  {
    NamedAfter(code[..pc], OUTSIDE);
  }

  lemma {:induction false} NoHeaders(c: seq<Instr>, p: Place)
    requires After(c, p).unit == p.unit
    ensures forall k :: 0 <= k < |c| ==> c[k].op != FFRAME
    decreases |c|
  {
    if c != [] {
      UnitGrows(c[1..], Advance(c[0], p));
      NoHeaders(c[1..], Advance(c[0], p));
    }
  }

  lemma UnitNamed(name: string, header: Instr, head: seq<Instr>, ss: seq<Stmt>, t: Table, n: nat)
    requires header.r2 == Name("end" + name) && Calm(head)
    ensures NamedHeaders([Label(name), header] + head + CompileBody(ss, t, [], [], n).code
                         + [RETURN_NULL, Label("end" + name)])
  {
    hide CompileBody, After;
    var p := Place(0, Name("end"), true, []);
    assert ("end" + name)[0] == 'e' && Plainly("end" + name);
    BodyStays(ss, t, [], [], n, p);
    NoHeaders(CompileBody(ss, t, [], [], n).code, p);
  }

  lemma {:induction false} LineNamed(fs: seq<Function>, n: nat)
    ensures NamedHeaders(Line(fs, n).code)
    decreases |fs|
  {
    hide CompileBody, FunctionTables;
    if fs != [] {
      var f := fs[0];
      var ts := FunctionTables(f);
      var b := CompileBody(f.body, ts.symbols, [], [], n);
      var load := LoadFunction(f, ts.symbols);
      var header := FrameHeader(|b.pool| + |ts.symbols|, ts, f.name);
      CalmOne(load);
      UnitNamed(f.name, header, [load], f.body, ts.symbols, n);
      assert [Label(f.name), header] + [load] == [Label(f.name), header, load];
      LineNamed(fs[1..], FunctionCode(f, n).labels);
    }
  }

  lemma ProgramNamed(c: Class)
    ensures NamedHeaders(CompileClass(c).code)
  {
    hide CompileBody, ClassTables, Line, Flat, PopArguments;
    var ts := ClassTables(c);
    var b := CompileBody(c.body, ts.symbols, [], [], 0);
    var header, create := FrameHeader(|b.pool| + |ts.symbols|, ts, c.name), [Instr(CREATE_THIS, NULL, NULL, NULL)];
    var pops := PopArguments(c.params, ts.symbols);
    CalmOne(create[0]);
    PopsCalm(c.params, ts.symbols);
    CalmConcat(create, pops);
    UnitNamed(c.name, header, create + pops, c.body, ts.symbols, 0);
    assert [Label(c.name), header] + (create + pops) == [Label(c.name), header, create[0]] + pops;
    assert NamedHeaders(ClassCode(c, 0).code);
    FunctionsInLine(Later(c.body), ClassCode(c, 0).labels);
    LineNamed(FunctionsOf(c), ClassCode(c, 0).labels);
  }

  /** Two handlers of one name guard regions with the same regions around them. */
  lemma SameRegion(code: seq<Instr>, j: nat, k: nat)
    requires Lawful(code) && j < |code| && k < |code| && code[j].op == SET_CATCH && code[k].op == SET_CATCH
    requires code[j].r0 == code[k].r0
    ensures PlaceAt(code, j).handlers == PlaceAt(code, k).handlers
  {
    hide After, Marked, AllConsistent, Shut, UniqueLabels, MarksOf;
    LawAt(code, MarksOf(code, OUTSIDE), j);
    LawAt(code, MarksOf(code, OUTSIDE), k);
    var p, q := PlaceAt(code, j), PlaceAt(code, k);
    assert p.handlers == (p.handlers + [code[j].r0])[..|p.handlers + [code[j].r0]| - 1];
    assert q.handlers == (q.handlers + [code[k].r0])[..|q.handlers + [code[k].r0]| - 1];
  }

  /** What is thrown between a try statement's SET_CATCH and CLEAR_CATCH, handler and finally body
      included, resumes at the statement's own catch label, in the same activation, if and only if
      no inner region is open: a handler that throws is entered again. */
  lemma HandlerCatchesItself(code: seq<Instr>, vm: Vm, message: real, base: nat, s: Stmt, t: Table, ends: seq<string>,
                             q: Pool, n: nat)
    requires Lawful(code) && vm.Running? && Invariant(code, vm)
    requires s.Try? && Placed(code, base, CompileStmt(s, t, ends, q, n).code) && NamedHeaders(code)
    requires Within(s, t, ends, q, n, base, vm.pc)
    ensures var vm' := Throw(code, vm, message);
            && vm'.Running? && vm'.current == vm.current
            && (vm'.pc == CatchAt(s, t, ends, q, n, base)
                <==> |PlaceAt(code, vm.pc).handlers| == |PlaceAt(code, base).handlers| + 1)
  {
    hide CompileStmt, PlaceAt, Tag, TranslatedOnce, Stands, UnitOf, MarksOf, Marked, AllConsistent, Shut, After;
    var own, open := PlaceAt(code, base).handlers, PlaceAt(code, vm.pc).handlers;
    var w := Name(Tag(CATCH, n + 1));
    SetsFirst(code, base, s, t, ends, q, n);
    HeaderHandles(code, base);
    PlacesNamed(code, base);
    HandlerStays(code, base, s, t, ends, q, n, vm.pc);
    CatchFound(code, base, s, t, ends, q, n);
    ChainedStands(code, vm.contexts, vm.current, vm.pc, vm.entered);
    SavedCatches(vm);
    ThrowLands(code, vm, message);
    LandsAtTop(code, vm, message);
    var k := HandlerRegistered(code, vm.pc);
    if Find(code, Top(open)) == Find(code, w) {
      SameRegion(code, base, k);
    }
    if |open| == |own| + 1 {
      assert open == own + [w];
    }
  }

  lemma LandsAtTop(code: seq<Instr>, vm: Vm, message: real)
    requires vm.Running? && vm.current < |vm.contexts| && vm.saved < |vm.contexts|
    requires HandlersOf(vm.contexts[vm.current]) != []
    requires Catcher(vm.contexts, vm.saved) == Catcher(vm.contexts, vm.current)
    ensures var vm', w := Throw(code, vm, message), Top(HandlersOf(vm.contexts[vm.current]));
            if Find(code, w).None? then vm'.Ended?
            else vm'.Running? && vm'.current == vm.current && vm'.pc == Find(code, w).value
  {
  }

  lemma SetsFirst(code: seq<Instr>, base: nat, s: Stmt, t: Table, ends: seq<string>, q: Pool, n: nat)
    requires s.Try? && Placed(code, base, CompileStmt(s, t, ends, q, n).code)
    ensures base < |code| && code[base].op == SET_CATCH && code[base].r0 == Name(Tag(CATCH, n + 1))
  {
    hide CompileBody, CompileStmt, Tag;
    TryParted(s, t, ends, q, n);
    var whole := CompileStmt(s, t, ends, q, n).code;
    assert code[base] == code[base..base + |whole|][0] == whole[0];
  }

  // ----- control through a try statement -----

  /** Where the parts of a try statement stand in the program. */
  datatype TryMap = TryMap(body: nat, leave: nat, caught: nat, handler: nat, lastly: nat, clear: nat)

  /** The statement's own bodies stand there: the try body behind SET_CATCH, then a jump to the
      finally label; the handler behind the catch label and a POP; the finally body behind the
      finally label; then CLEAR_CATCH. */
  ghost predicate Mapped(code: seq<Instr>, base: nat, s: Stmt, t: Table, ends: seq<string>, q: Pool, n: nat, m: TryMap)
    requires s.Try?
  {
    var b := CompileBody(s.body, t, ends, q, n + 2);
    var h := CompileBody(s.handler, t, ends, b.pool, b.labels);
    var f := if s.hasFinally then CompileBody(s.finallyBody, t, ends, h.pool, h.labels).code else [];
    && m == TryMap(base + 1, base + 1 + |b.code|, base + 2 + |b.code|, base + 4 + |b.code|,
                   base + 5 + |b.code| + |h.code|, base + 5 + |b.code| + |h.code| + |f|)
    && m.clear < |code|
    && code[base] == Instr(SET_CATCH, Name(Tag(CATCH, n + 1)), Name(Tag(FINALLY, n + 2)), NULL)
    && Placed(code, m.body, b.code) && code[m.leave] == Codegen.Jump(Tag(FINALLY, n + 2))
    && code[m.caught] == Label(Tag(CATCH, n + 1))
    && code[m.caught + 1] == Instr(POP, Idx(RegisterOf(t, s.exception)), NULL, NULL)
    && Placed(code, m.handler, h.code) && code[m.lastly - 1] == Label(Tag(FINALLY, n + 2))
    && Placed(code, m.lastly, f) && code[m.clear] == Instr(CLEAR_CATCH, NULL, NULL, NULL)
  }

  lemma TryMapped(code: seq<Instr>, base: nat, s: Stmt, t: Table, ends: seq<string>, q: Pool, n: nat)
      returns (m: TryMap)
    requires s.Try? && Placed(code, base, CompileStmt(s, t, ends, q, n).code)
    ensures Mapped(code, base, s, t, ends, q, n, m)
    ensures base + |CompileStmt(s, t, ends, q, n).code| == m.clear + 1
  {
    hide CompileBody, CompileStmt, Tag;
    TryParted(s, t, ends, q, n);
    var c := TryParts(s, t, ends, q, n);
    var set0 := [Instr(SET_CATCH, Name(Tag(CATCH, n + 1)), Name(Tag(FINALLY, n + 2)), NULL)];
    var js := [Codegen.Jump(Tag(FINALLY, n + 2)), Label(Tag(CATCH, n + 1))];
    var pop, lf := [Instr(POP, Idx(RegisterOf(t, s.exception)), NULL, NULL)], [Label(Tag(FINALLY, n + 2))];
    var clear := [Instr(CLEAR_CATCH, NULL, NULL, NULL)];
    m := TryMap(base + 1, base + 1 + |c.body.code|, base + 2 + |c.body.code|, base + 4 + |c.body.code|,
                base + 5 + |c.body.code| + |c.handler.code|,
                base + 5 + |c.body.code| + |c.handler.code| + |c.finallyBody.code|);
    EightPlaced(code, base, set0, c.body.code, js, pop, c.handler.code, lf, c.finallyBody.code, clear);
    PlacedOne(code, base, set0[0]);
    PlacedPair(code, m.leave, js);
    PlacedOne(code, m.caught + 1, pop[0]);
    PlacedOne(code, m.lastly - 1, lf[0]);
    PlacedOne(code, m.clear, clear[0]);
  }

  lemma EightPlaced(code: seq<Instr>, at: nat, a: seq<Instr>, b: seq<Instr>, c: seq<Instr>, d: seq<Instr>,
                    e: seq<Instr>, f: seq<Instr>, g: seq<Instr>, h: seq<Instr>)
    requires Placed(code, at, a + b + c + d + e + f + g + h)
    ensures Placed(code, at, a) && Placed(code, at + |a|, b) && Placed(code, at + |a + b|, c)
            && Placed(code, at + |a + b + c|, d) && Placed(code, at + |a + b + c + d|, e)
    ensures Placed(code, at + |a + b + c + d + e|, f) && Placed(code, at + |a + b + c + d + e + f|, g)
            && Placed(code, at + |a + b + c + d + e + f + g|, h)
  {
    hide Placed;
    PlacedConcat(code, at, a + b + c + d + e + f + g, h);
    PlacedConcat(code, at, a + b + c + d + e + f, g);
    PlacedConcat(code, at, a + b + c + d + e, f);
    PlacedConcat(code, at, a + b + c + d, e);
    PlacedConcat(code, at, a + b + c, d);
    PlacedConcat(code, at, a + b, c);
    PlacedConcat(code, at, a, b);
  }

  lemma PlacedPair(code: seq<Instr>, at: nat, c: seq<Instr>)
    requires Placed(code, at, c) && |c| == 2
    ensures at + 1 < |code| && code[at] == c[0] && code[at + 1] == c[1]
  {
    assert code[at] == code[at..at + 2][0] && code[at + 1] == code[at..at + 2][1];
  }

  function AllButLast(c: Context): seq<Word>
    requires HandlersOf(c) != []
  {
    HandlersOf(c)[..|HandlersOf(c)| - 1]
  }

  /** Control goes from SET_CATCH into the body; from the body's end, and from the handler's, to the
      finally body; from there through CLEAR_CATCH past the statement, where the handler is no
      longer registered. */
  lemma TryControl(code: seq<Instr>, vm: Vm, ch: Choice, base: nat, s: Stmt, t: Table, ends: seq<string>, q: Pool,
                   n: nat, m: TryMap)
    requires s.Try? && Mapped(code, base, s, t, ends, q, n, m) && UniqueLabels(code)
    requires Can(code, vm, ch) && !ch.Fail?
    ensures var vm' := NextState(code, vm, ch);
            && (vm.pc == base ==> vm'.Running? && vm'.pc == m.body && vm'.current == vm.current
                                  && HandlersOf(vm'.contexts[vm.current])
                                     == HandlersOf(vm.contexts[vm.current]) + [Name(Tag(CATCH, n + 1))])
            && (vm.pc == m.leave ==> vm'.Running? && vm'.pc == m.lastly - 1)
            && (vm.pc == m.lastly - 1 ==> vm'.Running? && vm'.pc == m.lastly)
            && (vm.pc == m.clear ==> vm'.Running? && vm'.pc == m.clear + 1 && vm'.current == vm.current
                                     && HandlersOf(vm.contexts[vm.current]) != []
                                     && HandlersOf(vm'.contexts[vm.current]) == AllButLast(vm.contexts[vm.current]))
  {
    hide CompileBody, Tag, Placed;
    FoundAt(code, m.lastly - 1);
  }

  lemma FoundAt(code: seq<Instr>, at: nat)
    requires UniqueLabels(code) && at < |code| && code[at].op == LABEL
    ensures Find(code, code[at].r0) == Some(at)
  {
  }

  /** What is thrown in a try statement, no inner region being open, arrives: after the catch
      label and the POP the handler's code runs, the exception's register holds what was thrown,
      and the stack is as it was when it was thrown. */
  lemma CaughtArrives(code: seq<Instr>, vm: Vm, message: real, base: nat, s: Stmt, t: Table, ends: seq<string>, q: Pool,
                      n: nat, m: TryMap, regs: Regs)
    requires Lawful(code) && vm.Running? && Invariant(code, vm) && NamedHeaders(code)
    requires s.Try? && Placed(code, base, CompileStmt(s, t, ends, q, n).code) && Mapped(code, base, s, t, ends, q, n, m)
    requires Within(s, t, ends, q, n, base, vm.pc)
    requires |PlaceAt(code, vm.pc).handlers| == |PlaceAt(code, base).handlers| + 1
    ensures var vm1 := Throw(code, vm, message);
            && Can(code, vm1, Proceed(regs)) && Can(code, NextState(code, vm1, Proceed(regs)), Proceed(regs))
            && var vm2 := NextState(code, NextState(code, vm1, Proceed(regs)), Proceed(regs));
               && vm2.Running? && vm2.pc == m.handler && vm2.current == vm.current < |vm2.contexts|
               && Get(vm2.contexts[vm2.current].regs, Idx(RegisterOf(t, s.exception))) == message
               && vm2.stack == vm.stack
  {
    hide CompileBody, CompileStmt, Tag, Placed, Lawful, PlaceAt, Throw;
    HandlerCatchesItself(code, vm, message, base, s, t, ends, q, n);
    ThrowLands(code, vm, message);
    var vm1 := Throw(code, vm, message);
    ThrowPushes(code, vm, message);
    assert CatchAt(s, t, ends, q, n, base) == m.caught;
    ReadyToGo(code, vm1);
  }

  lemma ThrowPushes(code: seq<Instr>, vm: Vm, message: real)
    requires vm.Running? && vm.saved < |vm.contexts| && Throw(code, vm, message).Running?
    ensures var vm' := Throw(code, vm, message);
            vm'.contexts == vm.contexts && vm'.stack == vm.stack + [message] && vm'.translated == vm.translated
  {
  }

  lemma ReadyToGo(code: seq<Instr>, vm: Vm)
    requires vm.Running? && Invariant(code, vm)
    ensures vm.pc < |code| && vm.current < |vm.contexts| && vm.saved < |vm.contexts| && |vm.translated| == |code|
  {
  }
}
