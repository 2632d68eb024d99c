/** Variables by name (src/interpreter/interpreter_dd.c:688-720, 800-829): a field of this is
    searched along the scopes' parent chain, through symbol tables decoded on first use, and is
    the very register the compiler gave the variable. */
module Scopes {
  import opened Options
  import opened Bytecode
  import opened Symbols
  import opened Assembler
  import opened AssemblerProof

  class Scope {
    const symbolsAddress: nat
    var parent: Scope?
    /** The decoded table, once somebody has looked. */
    var symbolTable: Option<Table>
    const locals: array<real>

    constructor (symbolsAddress: nat, parent: Scope?, locals: array<real>)
      ensures this.symbolsAddress == symbolsAddress && this.parent == parent && this.locals == locals
              && symbolTable == None
    {
      this.symbolsAddress, this.parent, this.locals, symbolTable := symbolsAddress, parent, locals, None;
    }
  }

  /** The table in the image that a scope's address points at. */
  function TableOf(b: Bytes, s: Scope): Table {
    if ReadSymbols(b, s.symbolsAddress).Some? then ReadSymbols(b, s.symbolsAddress).value.symbols else map[]
  }

  /** No two scopes of the chain are the same, or share registers. */
  ghost predicate Separate(chain: seq<Scope>) {
    forall i, j :: 0 <= i < j < |chain| ==> chain[i] != chain[j] && chain[i].locals != chain[j].locals
  }

  /** Each scope's parent is the next. */
  ghost predicate Linked(chain: seq<Scope>)
    reads chain
  {
    forall i :: 0 <= i < |chain| ==> chain[i].parent == if i + 1 < |chain| then chain[i + 1] else null
  }

  /** The scope's table numbers its names, its frame has room for them, and what was decoded was
      decoded right. */
  ghost predicate Sound(b: Bytes, s: Scope)
    reads s
  {
    && ReadSymbols(b, s.symbolsAddress).Some? && Numbering(TableOf(b, s)) && |TableOf(b, s)| < s.locals.Length
    && (s.symbolTable.None? || s.symbolTable == Some(TableOf(b, s)))
  }

  /** chain is a scope and its parents. */
  ghost predicate Chain(b: Bytes, chain: seq<Scope>)
    reads chain
  {
    chain != [] && Separate(chain) && Linked(chain) && forall i :: 0 <= i < |chain| ==> Sound(b, chain[i])
  }

  ghost function TablesOf(b: Bytes, chain: seq<Scope>): (r: seq<Table>)
    ensures |r| == |chain|
  {
    seq(|chain|, (i: nat) requires i < |chain| => TableOf(b, chain[i]))
  }

  ghost function Cells(chain: seq<Scope>): (r: seq<seq<real>>)
    reads set s | s in chain :: s.locals
    ensures |r| == |chain|
  {
    seq(|chain|, (i: nat) requires i < |chain| reads set s | s in chain :: s.locals => chain[i].locals[..])
  }

  /** The innermost scope that defines a name. */
  function Definer(tables: seq<Table>, name: string): (r: Option<nat>)
    ensures r.Some? ==>
      r.value < |tables| && name in tables[r.value] && forall j :: 0 <= j < r.value ==> name !in tables[j]
    ensures r.None? <==> forall j :: 0 <= j < |tables| ==> name !in tables[j]
  {
    if tables == [] then None
    else if name in tables[0] then Some(0)
    else match Definer(tables[1..], name)
         case None => None
         case Some(i) => Some(i + 1)
  }

  lemma DefinerAt(tables: seq<Table>, name: string, i: nat)
    requires i < |tables| && name in tables[i] && forall j :: 0 <= j < i ==> name !in tables[j]
    ensures Definer(tables, name) == Some(i)
  {
  }

  lemma NoDefiner(tables: seq<Table>, name: string)
    requires forall j :: 0 <= j < |tables| ==> name !in tables[j]
    ensures Definer(tables, name) == None
  {
  }

  /** Every scope's cells have room for its names. */
  ghost predicate Roomy(tables: seq<Table>, cells: seq<seq<real>>) {
    |cells| == |tables| && forall i :: 0 <= i < |tables| ==> Numbering(tables[i]) && |tables[i]| < |cells[i]|
  }

  /** What a name denotes: the register with its number in the innermost defining scope. */
  ghost function Read(tables: seq<Table>, cells: seq<seq<real>>, name: string): Option<real>
    requires Roomy(tables, cells)
  {
    match Definer(tables, name)
    case None => None
    case Some(i) => Some(cells[i][tables[i][name]])
  }

  ghost function Write(tables: seq<Table>, cells: seq<seq<real>>, name: string, v: real): seq<seq<real>>
    requires Roomy(tables, cells)
  {
    match Definer(tables, name)
    case None => cells
    case Some(i) => cells[i := cells[i][tables[i][name] := v]]
  }

  /** Reading after writing a defined name gives the value; every other name, and every cell but
      one, is as before. */
  lemma ReadAfterWrite(tables: seq<Table>, cells: seq<seq<real>>, name: string, v: real, other: string)
    requires Roomy(tables, cells) && Definer(tables, name).Some?
    ensures Roomy(tables, Write(tables, cells, name, v))
    ensures Read(tables, Write(tables, cells, name, v), other)
            == if other == name then Some(v) else Read(tables, cells, other)
    ensures var k := Definer(tables, name).value;
            forall i, r :: 0 <= i < |cells| && 0 <= r < |cells[i]| && !(i == k && r == tables[i][name]) ==>
              Write(tables, cells, name, v)[i][r] == cells[i][r]
  {
    var i := Definer(tables, name).value;
    assert Numbering(tables[i]);
  }

  /** In its own function a variable by name is its register. */
  lemma OwnVariable(tables: seq<Table>, cells: seq<seq<real>>, name: string)
    requires Roomy(tables, cells) && tables != [] && name in tables[0]
    ensures Read(tables, cells, name) == Some(cells[0][tables[0][name]])
  {
  }

  method TableFor(b: Bytes, s: Scope, ghost chain: seq<Scope>) returns (t: Table)
    requires Chain(b, chain) && s in chain
    modifies s`symbolTable
    ensures Chain(b, chain) && t == TableOf(b, s)
  {
    if s.symbolTable.None? {
      s.symbolTable := Some(ReadSymbols(b, s.symbolsAddress).value.symbols);
    }
    t := s.symbolTable.value;
  }

  /** The search along the chain: the innermost defining scope, at depth i, and the name's
      number in it. Nothing but decoded tables changes. */
  method Find(b: Bytes, current: Scope, name: string, ghost chain: seq<Scope>)
      returns (s: Scope?, index: nat, ghost i: nat)
    requires Chain(b, chain) && chain[0] == current
    modifies (set s | s in chain :: s)`symbolTable
    ensures Chain(b, chain)
    ensures s == null <==> Definer(TablesOf(b, chain), name) == None
    ensures s != null ==>
      Definer(TablesOf(b, chain), name) == Some(i) && s == chain[i] && index == TablesOf(b, chain)[i][name]
          && index < s.locals.Length
  {
    hide Separate, ReadSymbols, Definer;
    var context: Scope? := current;
    i := 0;
    while context != null
      invariant 0 <= i <= |chain| && Chain(b, chain)
      invariant context == if i < |chain| then chain[i] else null
      invariant forall j :: 0 <= j < i ==> name !in TablesOf(b, chain)[j]
      decreases |chain| - i
    {
      assert context in chain;
      var table := TableFor(b, context, chain);
      assert table == TablesOf(b, chain)[i];
      if name in table {
        DefinerAt(TablesOf(b, chain), name, i);
        return context, table[name], i;
      }
      assert context == chain[i] && context.parent == if i + 1 < |chain| then chain[i + 1] else null;
      context := context.parent;
      i := i + 1;
    }
    NoDefiner(TablesOf(b, chain), name);
    return null, 0, 0;
  }

  lemma ChainRoomy(b: Bytes, chain: seq<Scope>)
    requires Chain(b, chain)
    ensures Roomy(TablesOf(b, chain), Cells(chain))
  {
  }

  /** GET_FIELD on this: what the name denotes, if any scope defines it. */
  method GetField(b: Bytes, current: Scope, name: string, ghost chain: seq<Scope>) returns (r: Option<real>)
    requires Chain(b, chain) && chain[0] == current
    modifies (set s | s in chain :: s)`symbolTable
    ensures Chain(b, chain) && Roomy(TablesOf(b, chain), Cells(chain))
            && r == Read(TablesOf(b, chain), Cells(chain), name)
  {
    var s, index, i := Find(b, current, name, chain);
    ChainRoomy(b, chain);
    r := if s == null then None else Some(s.locals[index]);
  }

  /** SET_FIELD on this: the value is written where the name denotes; without a definition
      nothing is written, and the caller turns to the synchronized variables. */
  method SetField(b: Bytes, current: Scope, name: string, value: real, ghost chain: seq<Scope>) returns (found: bool)
    requires Chain(b, chain) && chain[0] == current
    modifies (set s | s in chain :: s)`symbolTable, set s | s in chain :: s.locals
    ensures Chain(b, chain) && Roomy(TablesOf(b, chain), old(Cells(chain)))
    ensures found == Definer(TablesOf(b, chain), name).Some?
    ensures Cells(chain) == Write(TablesOf(b, chain), old(Cells(chain)), name, value)
  {
    hide Roomy, Sound, Linked, ReadSymbols, Definer, TableOf;
    ChainRoomy(b, chain);
    var s, index, i := Find(b, current, name, chain);
    found := s != null;
    if s != null {
      assert Cells(chain) == old(Cells(chain));
      assert s in chain;
      s.locals[index] := value;
      CellWritten(b, chain, old(Cells(chain)), i, index, value);
    }
  }

  /** Only the written scope's cells differ. */
  lemma CellWritten(b: Bytes, chain: seq<Scope>, before: seq<seq<real>>, i: nat, index: nat, value: real)
    requires Chain(b, chain) && |before| == |chain| && i < |chain| && index < |before[i]| == chain[i].locals.Length
    requires forall j :: 0 <= j < |chain| && j != i ==> chain[j].locals[..] == before[j]
    requires chain[i].locals[..] == before[i][index := value]
    ensures Cells(chain) == before[i := before[i][index := value]]
  {
  }

  /** The table a frame of the image points at is the one the compiler put into its header, so
      the number a name is found under is the register the compiler uses for it. */
  lemma HeaderTable(code: seq<Instr>, k: nat)
    requires AllStorable(code) && k < |code| && code[k].op == FFRAME
    ensures Tabled(code) && code[k].r1.Syms?
    ensures var i := FetchWords(Image(code), Address(code, k));
            && i.Some? && i.value.r1.Idx?
            && ReadSymbols(Image(code), i.value.r1.n) == Some(Symbols.Tables(code[k].r1.table, code[k].r1.privates))
  {
    hide Image, ReadSymbols, FetchWords, LabelMap, Numbering, Legible, Address;
    ImageFetched(code, k);
    assert Storable(code[k]);
  }
}
