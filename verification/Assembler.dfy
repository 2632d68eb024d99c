/** The byte image of a program (src/program/Assembler.cpp) and its decoder
    (src/interpreter/object.c:259-278). A byte is a character or one of the eight bytes of a
    machine word, so overlapping or misaligned reads give nothing. */
module Assembler {
  import opened Sequences
  import opened Options
  import opened Bytecode
  import opened Symbols

  /** A machine word: an integer, a number, or a pointer of the compiler, meaningless at run time. */
  datatype Datum = Int(n: nat) | Num(x: real) | Pointer(w: Word)

  datatype Cell = Ch(c: char) | Part(d: Datum, k: nat)

  type Bytes = seq<Cell>

  const NUL: char := '\0'

  /** What a header word holds that nothing has been written to: the source copies it from past
      the end of a string constant. */
  const UNSET: Bytes := [Ch(' '), Ch(' '), Ch(' '), Ch(' '), Ch(' '), Ch(' '), Ch(' '), Ch(' ')]

  function WordBytes(d: Datum): (b: Bytes)
    ensures |b| == 8
  {
    seq(8, (k: nat) => Part(d, k))
  }

  function TextBytes(s: string): (b: Bytes)
    ensures |b| == |s| + 1
  {
    seq(|s|, (k: nat) requires k < |s| => Ch(s[k])) + [Ch(NUL)]
  }

  function ReadWord(b: Bytes, at: nat): Option<Datum> {
    if at + 8 <= |b| && b[at].Part? && b[at..at + 8] == WordBytes(b[at].d) then Some(b[at].d) else None
  }

  function ReadText(b: Bytes, at: nat): Option<string>
    decreases |b| - at
  {
    if at >= |b| || b[at].Part? then None
    else if b[at].c == NUL then Some("")
    else match ReadText(b, at + 1)
         case None => None
         case Some(s) => Some([b[at].c] + s)
  }

  // ----- symbol tables -----

  /** The name with number k. */
  ghost function NameAt(t: Table, k: nat): string
    requires Numbering(t) && 1 <= k <= |t|
    ensures NameAt(t, k) in t && t[NameAt(t, k)] == k
  {
    NumberingIsOnto(t, k);
    var x :| x in t && t[x] == k;
    x
  }

  const PUBLIC: Cell := Ch(NUL)
  const PRIVATE: Cell := Ch('\U{0001}')

  /** The rows for numbers k.. of a table: name, NUL, private byte. */
  ghost function RowBytes(t: Table, privates: set<string>, k: nat): Bytes
    requires Numbering(t) && 1 <= k <= |t| + 1
    decreases |t| + 1 - k
  {
    if k > |t| then []
    else
      var s := NameAt(t, k);
      TextBytes(s) + [if s in privates then PRIVATE else PUBLIC] + RowBytes(t, privates, k + 1)
  }

  lemma RowsUnfold(t: Table, privates: set<string>, k: nat)
    requires Numbering(t) && 1 <= k <= |t|
    ensures RowBytes(t, privates, k)
            == TextBytes(NameAt(t, k)) + [if NameAt(t, k) in privates then PRIVATE else PUBLIC]
                + RowBytes(t, privates, k + 1)
    ensures exists x :: x in t && t[x] == k
  {
    NumberingIsOnto(t, k);
  }

  lemma RowsEnd(t: Table, privates: set<string>)
    requires Numbering(t)
    ensures RowBytes(t, privates, |t| + 1) == []
  {
  }

  ghost function SymbolBytes(t: Table, privates: set<string>): Bytes
    requires Numbering(t)
  {
    WordBytes(Int(|t|)) + RowBytes(t, privates, 1)
  }

  /** The decoder's loop: rows i.. of n at position pos. */
  function ReadRows(b: Bytes, pos: nat, i: nat, n: nat, ts: Tables): Option<Tables>
    decreases n - i
  {
    if i >= n then Some(ts)
    else match ReadText(b, pos)
         case None => None
         case Some(s) =>
           var mark := pos + |s| + 1;
           if mark >= |b| || b[mark].Part? then None
           else ReadRows(b, mark + 1, i + 1, n,
                         Tables(ts.symbols[s := i + 1], if b[mark].c != NUL then ts.privates + {s} else ts.privates))
  }

  function ReadSymbols(b: Bytes, at: nat): Option<Tables> {
    match ReadWord(b, at)
    case Some(Int(n)) => ReadRows(b, at + 8, 0, n, EMPTY)
    case _ => None
  }

  // ----- constants -----

  function TextOf(w: Word): string { if w.Name? then w.s else "" }

  predicate HasText(op: nat) { op == MOV_STR || op == GET_FIELD_IMMEDIATE }

  /** Operands that name a text are texts, and frame headers carry a well-numbered table. */
  ghost predicate Worded(i: Instr) {
    && (i.op == IMPORT_CLS ==> i.r0.Name? && i.r1.Name?)
    && (HasText(i.op) ==> i.r1.Name?)
    && (i.op == FFRAME ==> i.r1.Syms? && Numbering(i.r1.table) && i.r1.privates <= i.r1.table.Keys)
    && (i.op == LABEL ==> i.r0.Name?)
  }

  /** Frame headers carry well-numbered symbol tables. */
  ghost predicate Tabled(code: seq<Instr>) {
    forall i :: i in code && i.op == FFRAME ==> i.r1.Syms? && Numbering(i.r1.table)
  }

  /** The constants of one instruction, placed at a position. */
  ghost function ConstantBytes(i: Instr): Bytes
    requires i.op == FFRAME ==> i.r1.Syms? && Numbering(i.r1.table)
  {
    if i.op == IMPORT_CLS then TextBytes(TextOf(i.r1)) + TextBytes(TextOf(i.r0))
    else if HasText(i.op) then TextBytes(TextOf(i.r1))
    else if i.op == FFRAME then SymbolBytes(i.r1.table, i.r1.privates)
    else []
  }

  /** The instruction with its constants' positions for operands. */
  function Pointed(i: Instr, at: nat): Instr {
    if i.op == IMPORT_CLS then i.(r1 := Idx(at), r0 := Idx(at + |TextOf(i.r1)| + 1))
    else if HasText(i.op) || i.op == FFRAME then i.(r1 := Idx(at))
    else i
  }

  ghost function AllConstants(code: seq<Instr>): Bytes
    requires Tabled(code)
  {
    if code == [] then [] else ConstantBytes(code[0]) + AllConstants(code[1..])
  }

  ghost function AllPointed(code: seq<Instr>, at: nat): (r: seq<Instr>)
    requires Tabled(code)
    ensures |r| == |code|
  {
    if code == [] then [] else [Pointed(code[0], at)] + AllPointed(code[1..], at + |ConstantBytes(code[0])|)
  }

  // ----- labels -----

  predicate IsReal(i: Instr) { i.op != LABEL && i.op != COMMENT }

  /** The number of instructions that are emitted. */
  function RealCount(code: seq<Instr>): nat {
    if code == [] then 0 else (if IsReal(code[0]) then 1 else 0) + RealCount(code[1..])
  }

  function Positions(code: seq<Instr>, at: nat, m: map<string, nat>): map<string, nat>
    decreases |code|
  {
    if code == [] then m
    else if code[0].op == LABEL then Positions(code[1..], at, m[TextOf(code[0].r0) := at])
    else Positions(code[1..], if IsReal(code[0]) then at + 32 else at, m)
  }

  const STATIC_CONSTRUCTOR: string := "__static__constructor__"

  /** A label operand becomes its position; an undefined label becomes 0. */
  function Position(m: map<string, nat>, w: Word): Word {
    if TextOf(w) in m then Idx(m[TextOf(w)]) else Idx(0)
  }

  function Resolved(m: map<string, nat>, i: Instr): Instr {
    if IsCompareJump(i.op) || IsImmediateJump(i.op) || i.op == FFRAME then i.(r2 := Position(m, i.r2))
    else if IsTestJump(i.op) || i.op == MOV_FNC then i.(r1 := Position(m, i.r1))
    else if i.op == JMP || i.op == SET_CATCH then i.(r0 := Position(m, i.r0))
    else i
  }

  // ----- emission -----

  function DatumOf(w: Word): Datum {
    match w
    case Idx(n) => Int(n)
    case Lit(x) => Num(x)
    case _ => Pointer(w)
  }

  function InstrBytes(i: Instr): (b: Bytes)
    ensures |b| == 32
  {
    WordBytes(Int(i.op)) + WordBytes(DatumOf(i.r0)) + WordBytes(DatumOf(i.r1)) + WordBytes(DatumOf(i.r2))
  }

  function CodeBytes(m: map<string, nat>, code: seq<Instr>): (b: Bytes)
    ensures |b| == 32 * RealCount(code)
  {
    if code == [] then []
    else (if IsReal(code[0]) then InstrBytes(Resolved(m, code[0])) else []) + CodeBytes(m, code[1..])
  }

  ghost function CodeStart(code: seq<Instr>): nat
    requires Tabled(code)
  {
    16 + |AllConstants(code)|
  }

  ghost function LabelMap(code: seq<Instr>): map<string, nat>
    requires Tabled(code)
  {
    Positions(code, CodeStart(code), map[])
  }

  ghost function HeaderBytes(code: seq<Instr>): (b: Bytes)
    requires Tabled(code)
    ensures |b| == 16
  {
    WordBytes(Int(CodeStart(code)))
    + if STATIC_CONSTRUCTOR in LabelMap(code) then WordBytes(Int(LabelMap(code)[STATIC_CONSTRUCTOR])) else UNSET
  }

  /** The whole image. */
  ghost function Image(code: seq<Instr>): Bytes
    requires Tabled(code)
  {
    HeaderBytes(code) + AllConstants(code) + CodeBytes(LabelMap(code), AllPointed(code, 16))
  }

  /** Writing the first word of an image leaves the second, the constants and the code alone. */
  lemma FirstWordPatched(before: Bytes, code: Bytes, word: Bytes)
    requires |before| >= 16 && |word| == 8
    ensures (before + code)[..0] + word + (before + code)[8..] == (word + before[8..16]) + before[16..] + code
  {
    assert before == before[..8] + before[8..16] + before[16..];
  }

  lemma HeaderTabled(code: seq<Instr>, i: Instr)
    requires Tabled(code) && i in code
    ensures i.op == FFRAME ==> i.r1.Syms? && Numbering(i.r1.table)
  {
  }

  lemma NoConstants(code: seq<Instr>, at: nat)
    requires code == []
    ensures Tabled(code) && AllConstants(code) == [] && AllPointed(code, at) == []
  {
  }

  lemma ConstantsUnfold(code: seq<Instr>, i: nat, at: nat)
    requires i < |code| && Tabled(code[i..])
    ensures code[i] in code[i..] && Tabled(code[i + 1..])
    ensures AllConstants(code[i..]) == ConstantBytes(code[i]) + AllConstants(code[i + 1..])
    ensures AllPointed(code[i..], at) == [Pointed(code[i], at)]
            + AllPointed(code[i + 1..], at + |ConstantBytes(code[i])|)
  {
    hide ConstantBytes, Pointed, SymbolBytes;
    assert code[i..][0] == code[i] && code[i..][1..] == code[i + 1..];
    assert forall j :: j in code[i + 1..] ==> j in code[i..];
  }

  lemma NoCode(m: map<string, nat>, code: seq<Instr>)
    requires code == []
    ensures CodeBytes(m, code) == []
  {
  }

  lemma CodeUnfold(m: map<string, nat>, code: seq<Instr>, i: nat)
    requires i < |code|
    ensures CodeBytes(m, code[i..])
            == (if IsReal(code[i]) then InstrBytes(Resolved(m, code[i])) else []) + CodeBytes(m, code[i + 1..])
  {
    assert code[i..][0] == code[i] && code[i..][1..] == code[i + 1..];
  }

  /** Pointing operands at constants moves no label. */
  lemma {:induction false} PointedPositions(code: seq<Instr>, at: nat, start: nat, m: map<string, nat>)
    requires Tabled(code)
    ensures Positions(AllPointed(code, at), start, m) == Positions(code, start, m)
    decreases |code|
  {
    hide ConstantBytes;
    if code != [] {
      assert forall j :: j in code[1..] ==> j in code;
      var r := AllPointed(code, at);
      assert r[0] == Pointed(code[0], at) && r[1..] == AllPointed(code[1..], at + |ConstantBytes(code[0])|);
      var next := at + |ConstantBytes(code[0])|;
      if code[0].op == LABEL {
        PointedPositions(code[1..], next, start, m[TextOf(code[0].r0) := start]);
      } else {
        PointedPositions(code[1..], next, if IsReal(code[0]) then start + 32 else start, m);
      }
    }
  }

  // ----- the assembler -----

  class Assembler {
    var bytes: Bytes
    var labelPositions: map<string, nat>

    constructor ()
      ensures bytes == [] && labelPositions == map[]
    {
      bytes, labelPositions := [], map[];
    }

    /** Appends data and returns its position. */
    method AddData(data: Bytes) returns (at: nat)
      modifies this`bytes
      ensures at == |old(bytes)| && bytes == old(bytes) + data
    {
      at := |bytes|;
      bytes := bytes + data;
    }

    /** Writes a word over bytes already there. */
    method PatchWord(at: nat, d: Datum)
      requires at + 8 <= |bytes|
      modifies this`bytes
      ensures bytes == old(bytes[..at]) + WordBytes(d) + old(bytes[at + 8..])
    {
      bytes := bytes[..at] + WordBytes(d) + bytes[at + 8..];
    }

    /** The rows of a symbol table, in the order of their numbers. */
    method AddSymbols(table: Table, privates: set<string>) returns (at: nat)
      requires Numbering(table)
      modifies this`bytes
      ensures at == |old(bytes)| && bytes == old(bytes) + SymbolBytes(table, privates)
    {
      hide RowBytes, WordBytes, TextBytes;
      at := AddData(WordBytes(Int(|table|)));
      var k := 1;
      while k <= |table|
        invariant 1 <= k <= |table| + 1
        invariant bytes + RowBytes(table, privates, k) == old(bytes) + SymbolBytes(table, privates)
      {
        ghost var before := bytes;
        RowsUnfold(table, privates, k);
        var str :| str in table && table[str] == k;
        assert str == NameAt(table, k);
        var _ := AddData(TextBytes(str));
        var mark := if str in privates then PRIVATE else PUBLIC;
        var _ := AddData([mark]);
        assert bytes + RowBytes(table, privates, k + 1) == before + RowBytes(table, privates, k);
        k := k + 1;
      }
      RowsEnd(table, privates);
      assert bytes + [] == bytes;
    }

    method Assemble(instructions: seq<Instr>)
      requires bytes == [] && labelPositions == map[] && Tabled(instructions)
      modifies this
      ensures bytes == Image(instructions)
    {
      hide AllConstants, AllPointed, Positions, CodeBytes, Tabled, WordBytes;
      var _ := AddData(WordBytes(Int(0)));
      var _ := AddData(UNSET);
      var pointed := AddConstants(instructions);
      var sizeofConstants := |bytes|;
      assert bytes[16..] == AllConstants(instructions);
      PlaceLabels(pointed, sizeofConstants);
      PointedPositions(instructions, 16, sizeofConstants, map[]);
      ghost var before := bytes;
      EmitCode(pointed);
      PatchWord(0, Int(sizeofConstants));
      FirstWordPatched(before, CodeBytes(labelPositions, pointed), WordBytes(Int(sizeofConstants)));
    }

    /** Strings and symbol tables, in the order of their instructions. */
    method AddConstants(instructions: seq<Instr>) returns (pointed: seq<Instr>)
      requires Tabled(instructions)
      modifies this`bytes
      ensures bytes == old(bytes) + AllConstants(instructions)
      ensures pointed == AllPointed(instructions, |old(bytes)|)
    {
      hide AllConstants, AllPointed, Tabled, SymbolBytes, WordBytes, TextBytes;
      pointed := [];
      var i := 0;
      assert instructions[0..] == instructions;
      while i < |instructions|
        invariant 0 <= i <= |instructions| && Tabled(instructions[i..])
        invariant bytes + AllConstants(instructions[i..]) == old(bytes) + AllConstants(instructions)
        invariant pointed + AllPointed(instructions[i..], |bytes|) == AllPointed(instructions, |old(bytes)|)
      {
        ghost var before, done, at := bytes, pointed, |bytes|;
        var instruction := instructions[i];
        ConstantsUnfold(instructions, i, at);
        HeaderTabled(instructions[i..], instruction);
        if instruction.op == IMPORT_CLS {
          var alias := AddData(TextBytes(TextOf(instructions[i].r1)));
          var path := AddData(TextBytes(TextOf(instructions[i].r0)));
          instruction := instruction.(r1 := Idx(alias), r0 := Idx(path));
        } else if instruction.op == MOV_STR || instruction.op == GET_FIELD_IMMEDIATE {
          var text := AddData(TextBytes(TextOf(instruction.r1)));
          instruction := instruction.(r1 := Idx(text));
        } else if instruction.op == FFRAME {
          var symbols := AddSymbols(instruction.r1.table, instruction.r1.privates);
          instruction := instruction.(r1 := Idx(symbols));
        }
        assert bytes == before + ConstantBytes(instructions[i]) && instruction == Pointed(instructions[i], at);
        pointed := pointed + [instruction];
        i := i + 1;
        Associate(before, ConstantBytes(instructions[i - 1]), AllConstants(instructions[i..]));
        Associate(done, [instruction], AllPointed(instructions[i..], |bytes|));
      }
      NoConstants(instructions[i..], |bytes|);
      assert bytes + [] == bytes && pointed + [] == pointed;
    }

    method PlaceLabels(instructions: seq<Instr>, start: nat)
      requires labelPositions == map[] && |bytes| >= 16
      modifies this
      ensures labelPositions == Positions(instructions, start, map[])
      ensures |bytes| == |old(bytes)| && bytes[..8] == old(bytes[..8]) && bytes[16..] == old(bytes[16..])
      ensures bytes[8..16] == if STATIC_CONSTRUCTOR in labelPositions
              then WordBytes(Int(labelPositions[STATIC_CONSTRUCTOR])) else old(bytes[8..16])
    {
      var lpos := 0;
      var i := 0;
      while i < |instructions|
        invariant 0 <= i <= |instructions|
        invariant Positions(instructions[i..], start + lpos, labelPositions) == Positions(instructions, start, map[])
        invariant |bytes| == |old(bytes)| && bytes[..8] == old(bytes[..8]) && bytes[16..] == old(bytes[16..])
        invariant bytes[8..16] == if STATIC_CONSTRUCTOR in labelPositions
                  then WordBytes(Int(labelPositions[STATIC_CONSTRUCTOR])) else old(bytes[8..16])
      {
        var instruction := instructions[i];
        if instruction.op == LABEL {
          labelPositions := labelPositions[TextOf(instruction.r0) := start + lpos];
          if TextOf(instruction.r0) == STATIC_CONSTRUCTOR {
            PatchWord(8, Int(start + lpos));
          }
        } else if instruction.op != COMMENT {
          lpos := lpos + 32;
        }
        i := i + 1;
      }
    }

    method EmitCode(instructions: seq<Instr>)
      modifies this`bytes
      ensures bytes == old(bytes) + CodeBytes(labelPositions, instructions)
    {
      hide CodeBytes, WordBytes, Position;
      var i := 0;
      assert instructions[0..] == instructions;
      while i < |instructions|
        invariant 0 <= i <= |instructions|
        invariant bytes + CodeBytes(labelPositions, instructions[i..]) == old(bytes)
                  + CodeBytes(labelPositions, instructions)
      {
        ghost var before := bytes;
        var instruction := instructions[i];
        CodeUnfold(labelPositions, instructions, i);
        ghost var emitted := if IsReal(instruction) then InstrBytes(Resolved(labelPositions, instruction)) else [];
        if instruction.op != COMMENT && instruction.op != LABEL {
          if JMP_LESS <= instruction.op <= JMP_N_EQUAL_I {
            instruction := instruction.(r2 := Position(labelPositions, instruction.r2));
          } else if instruction.op == JMP_NOT_TRUE || instruction.op == JMP_TRUE {
            instruction := instruction.(r1 := Position(labelPositions, instruction.r1));
          } else if instruction.op == JMP {
            instruction := instruction.(r0 := Position(labelPositions, instruction.r0));
          } else if instruction.op == MOV_FNC {
            instruction := instruction.(r1 := Position(labelPositions, instruction.r1));
          } else if instruction.op == SET_CATCH {
            instruction := instruction.(r0 := Position(labelPositions, instruction.r0));
          } else if instruction.op == FFRAME {
            instruction := instruction.(r2 := Position(labelPositions, instruction.r2));
          }
          assert instruction == Resolved(labelPositions, instructions[i]);
          var _ := AddData(WordBytes(Int(instruction.op)));
          var _ := AddData(WordBytes(DatumOf(instruction.r0)));
          var _ := AddData(WordBytes(DatumOf(instruction.r1)));
          var _ := AddData(WordBytes(DatumOf(instruction.r2)));
        }
        assert bytes == before + emitted;
        i := i + 1;
        Associate(before, emitted, CodeBytes(labelPositions, instructions[i..]));
      }
      NoCode(labelPositions, instructions[i..]);
      assert bytes + [] == bytes;
    }
  }
}
