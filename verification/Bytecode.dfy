/** A value that may be missing. */
module Options {
  datatype Option<+T> = None | Some(value: T)
}

/** The four-word instructions of src/program/instruction.h and their register footprint. */
module Bytecode {
  import opened Options

  const MOV_NUMBER: nat := 0
  const MOV_STR: nat := 1
  const MOV: nat := 2
  const ADD: nat := 3
  const SUB: nat := 4
  const DIV: nat := 5
  const MUL: nat := 6
  const MOD: nat := 7
  const CMP_EQUAL: nat := 8
  const CMP_LESS: nat := 9
  const CMP_LESS_OR_EQUAL: nat := 10
  const CMP_GREATER: nat := 11
  const CMP_N_EQUAL: nat := 12
  const CMP_GREATER_OR_EQUAL: nat := 13
  const JMP_TRUE: nat := 14
  const JMP_NOT_TRUE: nat := 15
  const JMP: nat := 16
  const GET_FIELD: nat := 17
  const GET_FIELD_IMMEDIATE: nat := 18
  const SET_FIELD: nat := 19
  const CALL: nat := 20
  const PUSH: nat := 21
  const POP: nat := 22
  const RETURN: nat := 23
  const RETURN_I: nat := 24
  const NOP: nat := 25
  const FFRAME: nat := 26
  const INC: nat := 27
  const DEC: nat := 28
  const MOV_FNC: nat := 29
  const JMP_LESS: nat := 30
  const JMP_GREATER: nat := 31
  const JMP_LESS_OR_EQUAL: nat := 32
  const JMP_GREATER_OR_EQUAL: nat := 33
  const JMP_EQUAL: nat := 34
  const JMP_N_EQUAL: nat := 35
  const JMP_LESS_I: nat := 36
  const JMP_GREATER_I: nat := 37
  const JMP_LESS_OR_EQUAL_I: nat := 38
  const JMP_GREATER_OR_EQUAL_I: nat := 39
  const JMP_EQUAL_I: nat := 40
  const JMP_N_EQUAL_I: nat := 41
  const IMPORT_CLS: nat := 42
  const THROW_EXCEPTION: nat := 43
  const SET_CATCH: nat := 44
  const CLEAR_CATCH: nat := 45
  const CREATE_THIS: nat := 46
  const COMMENT: nat := 47
  const LABEL: nat := 48

  /** An operand word: a register index or number, a character pointer, a literal's text
      (by its value), or the pointer to the function whose symbol and private tables FFRAME
      carries. */
  datatype Word = Idx(n: nat) | Name(s: string) | Lit(x: real) | Syms(table: map<string, nat>, privates: set<string>)

  const NULL: Word := Idx(0)

  datatype Instr = Instr(op: nat, r0: Word, r1: Word, r2: Word)

  predicate IsArithmetic(op: nat) { ADD <= op <= MOD }

  predicate IsCompare(op: nat) { CMP_EQUAL <= op <= CMP_GREATER_OR_EQUAL }

  predicate IsTestJump(op: nat) { op == JMP_TRUE || op == JMP_NOT_TRUE }

  predicate IsCompareJump(op: nat) { JMP_LESS <= op <= JMP_N_EQUAL }

  predicate IsImmediateJump(op: nat) { JMP_LESS_I <= op <= JMP_N_EQUAL_I }

  predicate IsJump(op: nat) {
    IsTestJump(op) || op == JMP || IsCompareJump(op) || IsImmediateJump(op)
  }

  /** Instructions whose effect reaches outside the activation's registers. */
  predicate IsExternal(op: nat) {
    || op == MOV_STR || op == GET_FIELD || op == GET_FIELD_IMMEDIATE || op == SET_FIELD || op == CALL
    || op == PUSH || op == POP || op == MOV_FNC || op == IMPORT_CLS || op == CREATE_THIS
  }

  /** Registers, literals and labels stand where the instruction format has them. */
  predicate Formed(i: Instr) {
    && (IsArithmetic(i.op) || IsCompare(i.op) ==> i.r0.Idx? && i.r1.Idx? && i.r2.Idx?)
    && (i.op == MOV || i.op == INC || i.op == DEC || IsCompareJump(i.op) ==> i.r0.Idx? && i.r1.Idx?)
    && (i.op == MOV_NUMBER || IsImmediateJump(i.op) ==> i.r0.Idx? && i.r1.Lit?)
    && (IsTestJump(i.op) ==> i.r0.Idx? && i.r1.Name?)
  }

  /** The operand words read as registers, in order. */
  function Args(i: Instr): seq<Word> {
    if IsArithmetic(i.op) || IsCompare(i.op) || IsCompareJump(i.op) || i.op == GET_FIELD then [i.r0, i.r1]
    else if i.op == MOV then [i.r1]
    else if IsTestJump(i.op) || IsImmediateJump(i.op) || i.op == RETURN || i.op == PUSH || i.op == INC
            || i.op == DEC || i.op == THROW_EXCEPTION || i.op == CALL || i.op == GET_FIELD_IMMEDIATE then [i.r0]
    else if i.op == SET_FIELD then [i.r0, i.r1, i.r2]
    else []
  }

  /** The operand words written as registers. */
  function Dests(i: Instr): seq<Word> {
    if IsArithmetic(i.op) || IsCompare(i.op) || i.op == GET_FIELD || i.op == GET_FIELD_IMMEDIATE then [i.r2]
    else if i.op == MOV_NUMBER || i.op == MOV_STR || i.op == MOV || i.op == MOV_FNC || i.op == POP then [i.r0]
    else if i.op == INC || i.op == DEC then [i.r0, i.r1]
    else if i.op == CALL then [i.r1]
    else if i.op == CREATE_THIS then [Idx(1)]
    else []
  }

  predicate Reads(i: Instr, r: nat) { Idx(r) in Args(i) }

  predicate Writes(i: Instr, r: nat) { Idx(r) in Dests(i) }

  /** Where straight-line segments end: labels, jumps, and instructions that leave the frame. */
  predicate EndsSegment(op: nat) { op == LABEL || IsJump(op) || op == RETURN || op == THROW_EXCEPTION }

  /** Position of the label named by a word; the first one, as label maps are keyed by name. */
  function Find(code: seq<Instr>, w: Word): (p: Option<nat>)
    ensures p.Some? ==> p.value < |code| && code[p.value].op == LABEL && code[p.value].r0 == w
    ensures p.None? ==> forall k :: 0 <= k < |code| && code[k].op == LABEL ==> code[k].r0 != w
  {
    if code == [] then None
    else if code[0].op == LABEL && code[0].r0 == w then Some(0)
    else match Find(code[1..], w)
         case None => None
         case Some(k) => Some(k + 1)
  }

  /** No label name is defined twice. */
  ghost predicate UniqueLabels(code: seq<Instr>) {
    forall i, j :: 0 <= i < j < |code| && code[i].op == LABEL && code[j].op == LABEL ==> code[i].r0 != code[j].r0
  }

  lemma FindUnique(code: seq<Instr>, k: nat)
    requires UniqueLabels(code) && k < |code| && code[k].op == LABEL
    ensures Find(code, code[k].r0) == Some(k)
  {
  }

  lemma FindNothing(w: Word)
    ensures Find([], w) == None
  {
  }

  lemma FindUnfold(code: seq<Instr>, w: Word)
    requires code != []
    ensures Find(code, w) == if code[0].op == LABEL && code[0].r0 == w then Some(0)
                             else if Find(code[1..], w).None? then None else Some(Find(code[1..], w).value + 1)
  {
  }

  /** Searching a concatenation: the left part first. */
  lemma {:induction false} FindConcat(a: seq<Instr>, b: seq<Instr>, w: Word)
    ensures Find(a + b, w) == if Find(a, w).Some? then Find(a, w)
                              else if Find(b, w).Some? then Some(|a| + Find(b, w).value) else None
  {
    hide Find;
    if a == [] {
      assert a + b == b;
      FindNothing(w);
    } else {
      assert (a + b)[0] == a[0] && (a + b)[1..] == a[1..] + b;
      FindConcat(a[1..], b, w);
      FindUnfold(a + b, w);
      FindUnfold(a, w);
    }
  }
}
