/** Everything put into the image is read back as it was, and the byte-addressed program runs
    as the labelled one. */
module AssemblerProof {
  import opened Options
  import opened Bytecode
  import opened Machine
  import opened Symbols
  import opened Assembler

  /** The bytes data stand at a position. */
  ghost predicate Holding(b: Bytes, at: nat, data: Bytes) { at + |data| <= |b| && b[at..at + |data|] == data }

  lemma HoldingConcat(b: Bytes, at: nat, x: Bytes, y: Bytes)
    requires Holding(b, at, x + y)
    ensures Holding(b, at, x) && Holding(b, at + |x|, y)
  {
    assert b[at..at + |x|] == (x + y)[..|x|];
    assert b[at + |x|..at + |x| + |y|] == (x + y)[|x|..];
  }

  lemma HoldingInside(b: Bytes, at: nat, x: Bytes, k: nat, y: Bytes)
    requires Holding(b, at, x) && Holding(x, k, y)
    ensures Holding(b, at + k, y)
  {
    forall j | 0 <= j < |y|
      ensures b[at + k..at + k + |y|][j] == y[j]
    {
      assert b[at + k + j] == b[at..at + |x|][k + j] == x[k + j] == x[k..k + |y|][j];
    }
  }

  // ----- words, texts, symbol tables -----

  lemma WordRead(b: Bytes, at: nat, d: Datum)
    requires Holding(b, at, WordBytes(d))
    ensures ReadWord(b, at) == Some(d)
  {
    assert b[at] == b[at..at + 8][0] == WordBytes(d)[0];
  }

  predicate Legible(s: string) { NUL !in s }

  /** A stored text is read back, whatever is stored around it. */
  lemma {:induction false} TextRead(b: Bytes, at: nat, s: string)
    requires Holding(b, at, TextBytes(s)) && Legible(s)
    ensures ReadText(b, at) == Some(s)
    decreases |s|
  {
    assert b[at] == b[at..at + |s| + 1][0] == TextBytes(s)[0];
    if s != [] {
      assert b[at] == Ch(s[0]) && s[0] in s;
      assert forall c :: c in s[1..] ==> c in s;
      assert TextBytes(s) == [Ch(s[0])] + TextBytes(s[1..]);
      HoldingConcat(b, at, [Ch(s[0])], TextBytes(s[1..]));
      TextRead(b, at + 1, s[1..]);
      assert [s[0]] + s[1..] == s;
    }
  }

  /** The part of a table with numbers below k. */
  function Below(t: Table, k: nat): Table { map x | x in t && t[x] < k :: t[x] }

  lemma BelowNext(t: Table, k: nat)
    requires Numbering(t) && 1 <= k <= |t|
    ensures Below(t, k)[NameAt(t, k) := k] == Below(t, k + 1)
  {
    var m, m' := Below(t, k)[NameAt(t, k) := k], Below(t, k + 1);
    forall x
      ensures x in m <==> x in m'
      ensures x in m ==> m[x] == m'[x]
    {
    }
  }

  /** Decoding the rows from number k on completes the table. */
  lemma {:induction false} RowsRead(b: Bytes, at: nat, t: Table, privates: set<string>, k: nat)
    requires Numbering(t) && 1 <= k <= |t| + 1 && (forall x :: x in t ==> Legible(x))
    requires Holding(b, at, RowBytes(t, privates, k))
    ensures ReadRows(b, at, k - 1, |t|, Tables(Below(t, k), privates * Below(t, k).Keys))
            == Some(Tables(t, privates * t.Keys))
    decreases |t| + 1 - k
  {
    hide Holding, TextBytes, ReadText, Legible, Numbering, Below;
    if k > |t| {
      BelowAll(t, k);
    } else {
      var s := NameAt(t, k);
      var mark := [if s in privates then PRIVATE else PUBLIC];
      HoldingConcat(b, at, TextBytes(s) + mark, RowBytes(t, privates, k + 1));
      HoldingConcat(b, at, TextBytes(s), mark);
      TextRead(b, at, s);
      HeldCell(b, at + |s| + 1, mark[0]);
      BelowNext(t, k);
      NextPrivates(t, privates, k);
      RowsRead(b, at + |s| + 2, t, privates, k + 1);
    }
  }

  lemma BelowAll(t: Table, k: nat)
    requires Numbering(t) && k > |t|
    ensures Below(t, k) == t
  {
  }

  lemma HeldCell(b: Bytes, at: nat, c: Cell)
    requires Holding(b, at, [c])
    ensures at < |b| && b[at] == c
  {
    assert b[at] == b[at..at + 1][0];
  }

  lemma NextPrivates(t: Table, privates: set<string>, k: nat)
    requires Numbering(t) && 1 <= k <= |t| && Below(t, k)[NameAt(t, k) := k] == Below(t, k + 1)
    ensures privates * Below(t, k + 1).Keys
            == if NameAt(t, k) in privates then privates * Below(t, k).Keys + {NameAt(t, k)}
               else privates * Below(t, k).Keys
  {
  }

  /** Decoding an emitted symbol table gives back the name numbers and the private marks. */
  lemma SymbolsRead(b: Bytes, at: nat, t: Table, privates: set<string>)
    requires Numbering(t) && (forall x :: x in t ==> Legible(x)) && Holding(b, at, SymbolBytes(t, privates))
    ensures ReadSymbols(b, at) == Some(Tables(t, privates * t.Keys))
  {
    HoldingConcat(b, at, WordBytes(Int(|t|)), RowBytes(t, privates, 1));
    WordRead(b, at, Int(|t|));
    assert Below(t, 1) == map[] && privates * Below(t, 1).Keys == {};
    RowsRead(b, at + 8, t, privates, 1);
  }

  // ----- decoding instructions -----

  function WordOf(d: Datum): Word {
    match d
    case Int(n) => Idx(n)
    case Num(x) => Lit(x)
    case Pointer(w) => w
  }

  function FetchWords(b: Bytes, at: nat): Option<Instr> {
    match (ReadWord(b, at), ReadWord(b, at + 8), ReadWord(b, at + 16), ReadWord(b, at + 24))
    case (Some(Int(op)), Some(d0), Some(d1), Some(d2)) => Some(Instr(op, WordOf(d0), WordOf(d1), WordOf(d2)))
    case _ => None
  }

  function TextAt(b: Bytes, w: Word): Option<Word> {
    if w.Idx? && ReadText(b, w.n).Some? then Some(Name(ReadText(b, w.n).value)) else None
  }

  function SymbolsAt(b: Bytes, w: Word): Option<Word> {
    if w.Idx? && ReadSymbols(b, w.n).Some?
    then Some(Syms(ReadSymbols(b, w.n).value.symbols, ReadSymbols(b, w.n).value.privates)) else None
  }

  /** The instruction at a position, with the texts and tables its operands point at. */
  function Fetch(b: Bytes, at: nat): Option<Instr> {
    match FetchWords(b, at)
    case None => None
    case Some(i) =>
      if i.op == IMPORT_CLS then
        (match (TextAt(b, i.r0), TextAt(b, i.r1))
         case (Some(w0), Some(w1)) => Some(i.(r0 := w0, r1 := w1))
         case _ => None)
      else if HasText(i.op) then
        (match TextAt(b, i.r1)
         case Some(w) => Some(i.(r1 := w))
         case None => None)
      else if i.op == FFRAME then
        (match SymbolsAt(b, i.r1)
         case Some(w) => Some(i.(r1 := w))
         case None => None)
      else Some(i)
  }

  /** Texts and names the image can represent: without NUL characters. */
  predicate Spellable(i: Instr) {
    && (i.op == IMPORT_CLS ==> Legible(TextOf(i.r0)) && Legible(TextOf(i.r1)))
    && (HasText(i.op) ==> Legible(TextOf(i.r1)))
    && (i.op == FFRAME && i.r1.Syms? ==> forall x :: x in i.r1.table ==> Legible(x))
  }

  ghost predicate Storable(i: Instr) { Worded(i) && Spellable(i) }

  ghost predicate AllStorable(code: seq<Instr>) { forall i :: i in code ==> Storable(i) }

  lemma StorableTabled(code: seq<Instr>)
    requires AllStorable(code)
    ensures Tabled(code)
  {
    forall i | i in code && i.op == FFRAME
      ensures i.r1.Syms? && Numbering(i.r1.table)
    {
      assert Storable(i);
    }
  }

  lemma WordsFetched(b: Bytes, at: nat, i: Instr)
    requires Holding(b, at, InstrBytes(i))
    ensures FetchWords(b, at) == Some(i)
  {
    var w0, w1, w2, w3 := WordBytes(Int(i.op)), WordBytes(DatumOf(i.r0)), WordBytes(DatumOf(i.r1)),
        WordBytes(DatumOf(i.r2));
    HoldingConcat(b, at, w0 + w1 + w2, w3);
    HoldingConcat(b, at, w0 + w1, w2);
    HoldingConcat(b, at, w0, w1);
    WordRead(b, at, Int(i.op));
    WordRead(b, at + 8, DatumOf(i.r0));
    WordRead(b, at + 16, DatumOf(i.r1));
    WordRead(b, at + 24, DatumOf(i.r2));
  }

  /** The bytes of an instruction decode to it, labels resolved, constants in place. */
  lemma InstrFetched(b: Bytes, at: nat, m: map<string, nat>, i: Instr, constants: nat)
    requires Storable(i) && Holding(b, constants, ConstantBytes(i))
    requires Holding(b, at, InstrBytes(Resolved(m, Pointed(i, constants))))
    ensures Fetch(b, at) == Some(Resolved(m, i))
  {
    hide Holding, ReadText, ReadSymbols, FetchWords, InstrBytes, SymbolBytes, Numbering, Legible, Position;
    WordsFetched(b, at, Resolved(m, Pointed(i, constants)));
    if i.op == IMPORT_CLS {
      HoldingConcat(b, constants, TextBytes(i.r1.s), TextBytes(i.r0.s));
      TextRead(b, constants, i.r1.s);
      TextRead(b, constants + |i.r1.s| + 1, i.r0.s);
    } else if HasText(i.op) {
      TextRead(b, constants, i.r1.s);
    } else if i.op == FFRAME {
      SymbolsRead(b, constants, i.r1.table, i.r1.privates);
      assert i.r1.privates * i.r1.table.Keys == i.r1.privates;
    }
  }

  // ----- positions -----

  ghost function ConstantsAt(code: seq<Instr>, k: nat, at: nat): nat
    requires Tabled(code) && k <= |code|
    decreases k
  {
    if k == 0 then at else ConstantsAt(code[1..], k - 1, at + |ConstantBytes(code[0])|)
  }

  lemma {:induction false} ConstantsHeld(code: seq<Instr>, k: nat, at: nat)
    requires Tabled(code) && k < |code|
    ensures code[k] in code
    ensures at <= ConstantsAt(code, k, at)
    ensures Holding(AllConstants(code), ConstantsAt(code, k, at) - at, ConstantBytes(code[k]))
    ensures AllPointed(code, at)[k] == Pointed(code[k], ConstantsAt(code, k, at))
    decreases k
  {
    hide ConstantBytes, Pointed;
    var c, rest := ConstantBytes(code[0]), AllConstants(code[1..]);
    assert Holding(c + rest, 0, c) && Holding(c + rest, |c|, rest);
    if k > 0 {
      assert forall j :: j in code[1..] ==> j in code;
      ConstantsHeld(code[1..], k - 1, at + |c|);
      HoldingInside(c + rest, |c|, rest, ConstantsAt(code, k, at) - at - |c|, ConstantBytes(code[k]));
    }
  }

  /** The position of the first real instruction at or after index k. */
  ghost function Address(code: seq<Instr>, k: nat): nat
    requires Tabled(code) && k <= |code|
  {
    CodeStart(code) + 32 * RealCount(code[..k])
  }

  lemma {:induction false} RealCountConcat(a: seq<Instr>, b: seq<Instr>)
    ensures RealCount(a + b) == RealCount(a) + RealCount(b)
  {
    if a == [] {
      assert a + b == b;
    } else {
      assert (a + b)[1..] == a[1..] + b;
      RealCountConcat(a[1..], b);
    }
  }

  lemma AddressNext(code: seq<Instr>, k: nat)
    requires Tabled(code) && k < |code|
    ensures Address(code, k + 1) == Address(code, k) + if IsReal(code[k]) then 32 else 0
  {
    assert code[..k + 1] == code[..k] + [code[k]];
    RealCountConcat(code[..k], [code[k]]);
    assert [code[k]][1..] == [];
  }

  lemma {:induction false} CodeHeld(m: map<string, nat>, code: seq<Instr>, k: nat)
    requires k < |code| && IsReal(code[k])
    ensures Holding(CodeBytes(m, code), 32 * RealCount(code[..k]), InstrBytes(Resolved(m, code[k])))
    decreases k
  {
    hide InstrBytes, Resolved;
    var c := if IsReal(code[0]) then InstrBytes(Resolved(m, code[0])) else [];
    var rest := CodeBytes(m, code[1..]);
    if k == 0 {
      assert code[..0] == [];
      assert Holding(c + rest, 0, c);
    } else {
      CodeHeld(m, code[1..], k - 1);
      assert code[1..][..k - 1] == code[..k][1..];
      assert Holding(c + rest, |c|, rest);
      HoldingInside(c + rest, |c|, rest, 32 * RealCount(code[1..][..k - 1]), InstrBytes(Resolved(m, code[k])));
    }
  }

  lemma {:induction false} PointedKinds(code: seq<Instr>, at: nat, k: nat)
    requires Tabled(code) && k <= |code|
    ensures RealCount(AllPointed(code, at)[..k]) == RealCount(code[..k])
    decreases k
  {
    hide ConstantBytes;
    if k > 0 {
      assert forall j :: j in code[1..] ==> j in code;
      var r := AllPointed(code, at);
      assert r[0] == Pointed(code[0], at) && r[1..] == AllPointed(code[1..], at + |ConstantBytes(code[0])|);
      assert r[..k][1..] == r[1..][..k - 1] && code[..k][1..] == code[1..][..k - 1];
      PointedKinds(code[1..], at + |ConstantBytes(code[0])|, k - 1);
    }
  }

  /** At the position of a real instruction, the image decodes to it: strings and symbol tables
      are unharmed by whatever was appended or patched later. */
  lemma ImageFetched(code: seq<Instr>, k: nat)
    requires AllStorable(code) && k < |code| && IsReal(code[k])
    ensures Tabled(code) && Fetch(Image(code), Address(code, k)) == Some(Resolved(LabelMap(code), code[k]))
  {
    hide HeaderBytes, ConstantBytes, InstrBytes, Resolved, Pointed, Fetch, Storable, CodeBytes;
    StorableTabled(code);
    var b, m := Image(code), LabelMap(code);
    var h, c, e := HeaderBytes(code), AllConstants(code), CodeBytes(m, AllPointed(code, 16));
    assert Holding(b, 16, c) && Holding(b, CodeStart(code), e);
    ConstantsHeld(code, k, 16);
    var at := ConstantsAt(code, k, 16);
    HoldingInside(b, 16, c, at - 16, ConstantBytes(code[k]));
    PointedReal(code[k], at);
    PointedKinds(code, 16, k);
    CodeHeld(m, AllPointed(code, 16), k);
    HoldingInside(b, CodeStart(code), e, 32 * RealCount(code[..k]), InstrBytes(Resolved(m, Pointed(code[k], at))));
    InstrFetched(b, Address(code, k), m, code[k], at);
  }

  lemma PointedReal(i: Instr, at: nat)
    ensures IsReal(Pointed(i, at)) == IsReal(i)
  {
  }

  /** Past the last instruction there is nothing to decode. */
  lemma ImageEnds(code: seq<Instr>)
    requires Tabled(code)
    ensures Address(code, |code|) == |Image(code)| && Fetch(Image(code), |Image(code)|) == None
  {
    assert code[..|code|] == code && AllPointed(code, 16)[..|code|] == AllPointed(code, 16);
    PointedKinds(code, 16, |code|);
  }

  // ----- labels -----

  /** A label's entry in the map is the position of the instruction after it. */
  lemma {:induction false} LabelPlaced(code: seq<Instr>, k: nat, at: nat, m: map<string, nat>)
    requires UniqueLabels(code) && k < |code| && code[k].op == LABEL && code[k].r0.Name?
    requires forall j :: 0 <= j < |code| && code[j].op == LABEL ==> code[j].r0.Name?
    ensures var p := Positions(code, at, m);
            code[k].r0.s in p && p[code[k].r0.s] == at + 32 * RealCount(code[..k])
    decreases |code|
  {
    var rest := code[1..];
    forall i, j | 0 <= i < j < |rest| && rest[i].op == LABEL && rest[j].op == LABEL
      ensures rest[i].r0 != rest[j].r0
    {
      assert code[i + 1].r0 != code[j + 1].r0;
    }
    if k == 0 {
      assert code[..0] == [];
      forall j | 0 <= j < |rest| && rest[j].op == LABEL
        ensures rest[j].r0 != code[0].r0
      {
        assert code[j + 1].r0 != code[0].r0;
      }
      PositionKept(rest, at, m[code[0].r0.s := at], code[0].r0.s);
    } else {
      assert code[..k][1..] == rest[..k - 1];
      if code[0].op == LABEL {
        LabelPlaced(rest, k - 1, at, m[code[0].r0.s := at]);
      } else {
        LabelPlaced(rest, k - 1, if IsReal(code[0]) then at + 32 else at, m);
      }
    }
  }

  lemma {:induction false} PositionKept(code: seq<Instr>, at: nat, m: map<string, nat>, s: string)
    requires s in m && forall j :: 0 <= j < |code| && code[j].op == LABEL ==> code[j].r0.Name? && code[j].r0.s != s
    ensures s in Positions(code, at, m) && Positions(code, at, m)[s] == m[s]
    decreases |code|
  {
    if code != [] {
      var rest := code[1..];
      forall j | 0 <= j < |rest| && rest[j].op == LABEL
        ensures rest[j].r0.Name? && rest[j].r0.s != s
      {
        assert rest[j] == code[j + 1];
      }
      if code[0].op == LABEL {
        PositionKept(rest, at, m[code[0].r0.s := at], s);
      } else {
        PositionKept(rest, if IsReal(code[0]) then at + 32 else at, m, s);
      }
    }
  }

  /** Every resolved operand is the position of the first real instruction after its label. */
  lemma LabelResolved(code: seq<Instr>, w: Word)
    requires AllStorable(code) && UniqueLabels(code) && Find(code, w).Some?
    ensures Tabled(code) && w.Name? && Position(LabelMap(code), w) == Idx(Address(code, Find(code, w).value))
  {
    StorableTabled(code);
    var k := Find(code, w).value;
    forall j | 0 <= j < |code| && code[j].op == LABEL
      ensures code[j].r0.Name?
    {
      assert code[j] in code;
    }
    LabelPlaced(code, k, CodeStart(code), map[]);
  }
}
