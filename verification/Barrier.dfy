/** The stop-the-world protocol (src/common/alloc.c:80-100, src/interpreter/interpreter_dd.c:194-214,
    src/main.cpp:65-80): every thread that allocates, starts a thread or ends waits twice on the
    barrier picked by the parity of the collection count; one of them collects in between and
    re-initializes the other barrier. A barrier is an atomic counted rendezvous. */
module Barrier {

  type Tid = nat

  /** Why a thread is at the barrier. */
  datatype Kind = Alloc | Start(child: Tid) | End

  datatype Stage = Chosen | Collecting | Collected

  /** Where a thread is in schedule_gc. Pending: the thread count is updated, the barrier not yet
      picked. Serial: between the two waits, as the one that collects. Creating and Unborn: after
      the round of a Start, before pthread_create. */
  datatype Phase =
    | Running
    | Pending(kind: Kind)
    | Picked(kind: Kind)
    | First(kind: Kind)
    | Between(kind: Kind)
    | Serial(kind: Kind, stage: Stage)
    | Second(kind: Kind)
    | Creating(child: Tid)
    | Unborn

  datatype Gate = Gate(count: nat, waiters: set<Tid>)

  /** gates[b]: the two barriers; selected: the shared pointer to the one in use. */
  datatype World = World(threads: map<Tid, Phase>, total: int, gcCount: nat, selected: bool, even: Gate, odd: Gate)

  function GateAt(w: World, b: bool): Gate { if b then w.even else w.odd }

  function SetGate(w: World, b: bool, g: Gate): World { if b then w.(even := g) else w.(odd := g) }

  predicate Even(n: nat) { n % 2 == 0 }

  /** The main thread alone, both barriers for one. */
  function Initial(main: Tid): World {
    World(map[main := Running], 1, 0, true, Gate(1, {}), Gate(1, {}))
  }

  predicate HasKind(p: Phase) { !p.Running? && !p.Creating? && !p.Unborn? }

  predicate Starts(p: Phase) { HasKind(p) && p.kind.Start? }

  predicate Ends(p: Phase) { HasKind(p) && p.kind.End? }

  // ----- steps -----

  datatype Step =
    | Request(t: Tid, kind: Kind)
    | Pick(t: Tid)
    | ArriveFirst(t: Tid, serial: Tid)
    | Advance(t: Tid)
    | ArriveSecond(t: Tid)
    | Create(t: Tid)

  /** Identifiers of threads that exist or are about to. */
  predicate Fresh(w: World, c: Tid) {
    c !in w.threads && forall x :: x in w.threads && Starts(w.threads[x]) ==> w.threads[x].kind.child != c
  }

  predicate Can(w: World, s: Step) {
    s.t in w.threads &&
    match s
    case Request(t, k) => w.threads[t].Running? && (k.Start? ==> Fresh(w, k.child))
    case Pick(t) => w.threads[t].Pending?
    case ArriveFirst(t, serial) => w.threads[t].Picked? && serial in GateAt(w, w.selected).waiters + {t}
    case Advance(t) => w.threads[t].Serial?
    case ArriveSecond(t) => w.threads[t].Between?
    case Create(t) => w.threads[t].Creating? && w.threads[t].child in w.threads
  }

  /** The first rendezvous: one thread is told that it is the serial one. */
  function Opened(threads: map<Tid, Phase>, group: set<Tid>, serial: Tid): map<Tid, Phase> {
    map x | x in threads ::
      if x in group && HasKind(threads[x]) then
        if x == serial then Serial(threads[x].kind, Chosen) else Between(threads[x].kind)
      else threads[x]
  }

  function Afterwards(p: Phase): Phase {
    if Starts(p) then Creating(p.kind.child) else Running
  }

  function Children(threads: map<Tid, Phase>, group: set<Tid>): set<Tid> {
    set x | x in threads && x in group && Starts(threads[x]) :: threads[x].kind.child
  }

  /** The second rendezvous: threads that end are gone, threads to be started are expected. */
  function Closed(threads: map<Tid, Phase>, group: set<Tid>): map<Tid, Phase> {
    (map x | x in threads && !(x in group && Ends(threads[x])) :: if x in group then Afterwards(threads[x])
     else threads[x])
    + (map c | c in Children(threads, group) :: Unborn)
  }

  function Do(w: World, s: Step): World
    requires Can(w, s)
  {
    match s
    case Request(t, k) =>
      w.(threads := w.threads[t := Pending(k)], total := if k.Start? then w.total + 1 else if k.End? then w.total - 1
         else w.total)
    case Pick(t) =>
      w.(threads := w.threads[t := Picked(w.threads[t].kind)], selected := Even(w.gcCount))
    case ArriveFirst(t, serial) =>
      var g := GateAt(w, w.selected);
      if |g.waiters + {t}| == g.count then
        SetGate(w, w.selected, g.(waiters := {})).(threads := Opened(w.threads, g.waiters + {t}, serial))
      else
        SetGate(w, w.selected, g.(waiters := g.waiters + {t})).(threads := w.threads[t := First(w.threads[t].kind)])
    case Advance(t) =>
      var p := w.threads[t];
      (match p.stage
       case Chosen => w.(gcCount := w.gcCount + 1, threads := w.threads[t := Serial(p.kind, Collecting)])
       case Collecting => w.(threads := w.threads[t := Serial(p.kind, Collected)])
       case Collected =>
         SetGate(w, Even(w.gcCount), Gate(if w.total < 0 then 0 else w.total, {})).(threads
             := w.threads[t := Between(p.kind)]))
    case ArriveSecond(t) =>
      var g := GateAt(w, w.selected);
      if |g.waiters + {t}| == g.count then
        SetGate(w, w.selected, g.(waiters := {})).(threads := Closed(w.threads, g.waiters + {t}))
      else
        SetGate(w, w.selected, g.(waiters := g.waiters + {t})).(threads := w.threads[t := Second(w.threads[t].kind)])
    case Create(t) =>
      w.(threads := w.threads[w.threads[t].child := Running][t := Running])
  }

  // ----- the invariant -----

  function InFirst(threads: map<Tid, Phase>): set<Tid> { set x | x in threads && threads[x].First? }

  function InSecond(threads: map<Tid, Phase>): set<Tid> { set x | x in threads && threads[x].Second? }

  function Starting(threads: map<Tid, Phase>): set<Tid> { set x | x in threads && Starts(threads[x]) }

  function Ending(threads: map<Tid, Phase>): set<Tid> { set x | x in threads && Ends(threads[x]) }

  predicate Outside(p: Phase) { p.Running? || p.Pending? || p.Picked? || p.First? || p.Creating? || p.Unborn? }

  predicate Inside(p: Phase) { p.Between? || p.Serial? || p.Second? }

  predicate AllOutside(ts: map<Tid, Phase>) { forall x :: x in ts ==> Outside(ts[x]) }

  predicate AllInside(ts: map<Tid, Phase>) { forall x :: x in ts ==> Inside(ts[x]) }

  predicate NonePicked(ts: map<Tid, Phase>) { forall x :: x in ts ==> !ts[x].Picked? && !ts[x].First? }

  function Serials(ts: map<Tid, Phase>): set<Tid> { set x | x in ts && ts[x].Serial? }

  /** No round is going on: the barrier that will be picked counts every participant. */
  predicate Apart(w: World) {
    var here := Even(w.gcCount);
    && AllOutside(w.threads)
    && (NonePicked(w.threads) || w.selected == here)
    && GateAt(w, here).count == |w.threads|
    && GateAt(w, here).waiters == InFirst(w.threads) && (w.threads.Keys != {} ==> InFirst(w.threads) != w.threads.Keys)
    && GateAt(w, !here).waiters == {}
  }

  /** At most one thread collects; the count is incremented after its first stage. With none
      left the other barrier is the next to be picked, and counts the next participants. */
  predicate Serves(w: World) {
    || (exists t :: Serials(w.threads) == {t} && t in w.threads && w.threads[t].Serial?
                    && (w.selected == Even(w.gcCount) <==> w.threads[t].stage.Chosen?))
    || (Serials(w.threads) == {} && w.selected != Even(w.gcCount) && GateAt(w, !w.selected).count == w.total)
  }

  /** A round is going on: every participant is between the two waits or in the second. */
  predicate Together(w: World) {
    && AllInside(w.threads)
    && Serves(w)
    && GateAt(w, w.selected).count == |w.threads|
    && GateAt(w, w.selected).waiters == InSecond(w.threads) && InSecond(w.threads) != w.threads.Keys
    && GateAt(w, !w.selected).waiters == {}
  }

  function Unborns(threads: map<Tid, Phase>): set<Tid> { set x | x in threads && threads[x].Unborn? }

  /** Threads to be started are nobody else. */
  ghost predicate Distinct(ts: map<Tid, Phase>) {
    && (forall x :: x in ts && Starts(ts[x]) ==> ts[x].kind.child !in ts)
    && (forall x :: x in ts && ts[x].Creating? ==> ts[x].child in Unborns(ts))
    && (forall x, y :: x in ts && y in ts && x != y && Starts(ts[x]) && Starts(ts[y]) ==>
          ts[x].kind.child != ts[y].kind.child)
    && (forall x, y :: x in ts && y in ts && x != y && ts[x].Creating? && ts[y].Creating? ==>
          ts[x].child != ts[y].child)
  }

  predicate Counted(w: World) { w.total == |w.threads| + |Starting(w.threads)| - |Ending(w.threads)| }

  ghost predicate Invariant(w: World) { Distinct(w.threads) && Counted(w) && (Apart(w) || Together(w)) }

  lemma InitialInvariant(main: Tid)
    ensures Invariant(Initial(main))
  {
    var w := Initial(main);
    assert w.threads.Keys == {main} && InFirst(w.threads) == {} && Starting(w.threads) == {}
        && Ending(w.threads) == {};
  }

  // ----- one thread moves on -----

  /** Thread t alone changes its phase, for the same kind of visit. */
  ghost predicate Moves(ts: map<Tid, Phase>, ts': map<Tid, Phase>, t: Tid) {
    && t in ts && ts'.Keys == ts.Keys
    && HasKind(ts[t]) && HasKind(ts'[t]) && ts'[t].kind == ts[t].kind
    && forall x :: x in ts && x != t ==> ts'[x] == ts[x]
  }

  lemma SameSize(ts: map<Tid, Phase>, ts': map<Tid, Phase>)
    requires ts'.Keys == ts.Keys
    ensures |ts'| == |ts|
  {
    assert |ts'| == |ts'.Keys| && |ts| == |ts.Keys|;
  }

  lemma MovesCounted(ts: map<Tid, Phase>, ts': map<Tid, Phase>, t: Tid)
    requires Moves(ts, ts', t) && Distinct(ts)
    ensures Distinct(ts') && Starting(ts') == Starting(ts) && Ending(ts') == Ending(ts) && |ts'| == |ts|
  {
    SameSize(ts, ts');
    MovesSets(ts, ts', t);
    MovesDistinct(ts, ts', t);
  }

  lemma MovesSets(ts: map<Tid, Phase>, ts': map<Tid, Phase>, t: Tid)
    requires Moves(ts, ts', t)
    ensures Starting(ts') == Starting(ts) && Ending(ts') == Ending(ts) && Unborns(ts') == Unborns(ts)
  {
    assert forall x :: x in ts ==>
      Starts(ts'[x]) == Starts(ts[x]) && Ends(ts'[x]) == Ends(ts[x]) && ts'[x].Unborn? == ts[x].Unborn?;
  }

  lemma MovesDistinct(ts: map<Tid, Phase>, ts': map<Tid, Phase>, t: Tid)
    requires Moves(ts, ts', t) && Distinct(ts)
    ensures Distinct(ts')
  {
    hide Unborns;
    MovesSets(ts, ts', t);
    assert forall x :: x in ts && Starts(ts[x]) ==> ts'[x].kind.child == ts[x].kind.child;
  }

  // ----- every step keeps the invariant -----

  lemma RequestDistinct(ts: map<Tid, Phase>, t: Tid, k: Kind)
    requires Distinct(ts) && t in ts && ts[t].Running?
    requires k.Start? ==> k.child !in ts && forall x :: x in ts && Starts(ts[x]) ==> ts[x].kind.child != k.child
    ensures Distinct(ts[t := Pending(k)])
  {
    var ts' := ts[t := Pending(k)];
    assert Unborns(ts') == Unborns(ts);
    assert ts'.Keys == ts.Keys;
  }

  lemma RequestCounted(ts: map<Tid, Phase>, t: Tid, k: Kind)
    requires t in ts && ts[t].Running?
    ensures var ts' := ts[t := Pending(k)];
            && |ts'| == |ts|
            && |Starting(ts')| == |Starting(ts)| + (if k.Start? then 1 else 0)
            && |Ending(ts')| == |Ending(ts)| + (if k.End? then 1 else 0)
  {
    hide Starting, Ending;
    var ts' := ts[t := Pending(k)];
    assert ts'.Keys == ts.Keys;
    SameSize(ts, ts');
    RequestSets(ts, t, k);
  }

  lemma RequestSets(ts: map<Tid, Phase>, t: Tid, k: Kind)
    requires t in ts && ts[t].Running?
    ensures var ts' := ts[t := Pending(k)];
            && t !in Starting(ts) && Starting(ts') == Starting(ts) + (if k.Start? then {t} else {})
            && t !in Ending(ts) && Ending(ts') == Ending(ts) + (if k.End? then {t} else {})
  {
  }

  /** A thread outside stays outside; the others do not change. */
  lemma StaysOutside(ts: map<Tid, Phase>, ts': map<Tid, Phase>, t: Tid)
    requires AllOutside(ts) && t in ts && ts'.Keys == ts.Keys && Outside(ts'[t])
    requires forall x :: x in ts && x != t ==> ts'[x] == ts[x]
    ensures AllOutside(ts')
    ensures InFirst(ts') == if ts'[t].First? then InFirst(ts) + {t} else InFirst(ts) - {t}
    ensures !ts'[t].Picked? && !ts'[t].First? && NonePicked(ts) ==> NonePicked(ts')
  {
  }

  lemma StaysInside(ts: map<Tid, Phase>, ts': map<Tid, Phase>, t: Tid)
    requires AllInside(ts) && t in ts && ts'.Keys == ts.Keys && Inside(ts'[t])
    requires forall x :: x in ts && x != t ==> ts'[x] == ts[x]
    ensures AllInside(ts')
    ensures InSecond(ts') == if ts'[t].Second? then InSecond(ts) + {t} else InSecond(ts) - {t}
    ensures Serials(ts') == if ts'[t].Serial? then Serials(ts) + {t} else Serials(ts) - {t}
  {
  }

  lemma RequestKeeps(w: World, t: Tid, k: Kind)
    requires Invariant(w) && Can(w, Request(t, k))
    ensures Invariant(Do(w, Request(t, k)))
  {
    hide Distinct, Starting, Ending, InFirst, AllOutside, AllInside, NonePicked;
    var w' := Do(w, Request(t, k));
    IsApart(w, t);
    RequestDistinct(w.threads, t, k);
    RequestCounted(w.threads, t, k);
    assert w'.threads.Keys == w.threads.Keys;
    StaysOutside(w.threads, w'.threads, t);
    RunningNotFirst(w.threads, t);
    assert Apart(w');
  }

  lemma IsApart(w: World, t: Tid)
    requires Invariant(w) && t in w.threads && Outside(w.threads[t])
    ensures Apart(w)
  {
    hide Distinct, Starting, Ending, InFirst;
  }

  lemma IsTogether(w: World, t: Tid)
    requires Invariant(w) && t in w.threads && Inside(w.threads[t])
    ensures Together(w)
  {
    hide Distinct, Starting, Ending, InFirst;
  }

  lemma RunningNotFirst(ts: map<Tid, Phase>, t: Tid)
    requires t in ts && !ts[t].First?
    ensures t !in InFirst(ts)
  {
  }

  lemma PickKeeps(w: World, t: Tid)
    requires Invariant(w) && Can(w, Pick(t))
    ensures Invariant(Do(w, Pick(t)))
  {
    hide Distinct, Starting, Ending, InFirst, AllOutside, AllInside, NonePicked;
    var w' := Do(w, Pick(t));
    IsApart(w, t);
    assert w'.threads.Keys == w.threads.Keys;
    MovesCounted(w.threads, w'.threads, t);
    StaysOutside(w.threads, w'.threads, t);
    RunningNotFirst(w.threads, t);
    assert Apart(w');
  }

  /** Threads, all at the first wait, that make up the count are all the threads. */
  lemma AllArrived(ts: map<Tid, Phase>, group: set<Tid>)
    requires group <= ts.Keys && |group| == |ts|
    ensures group == ts.Keys
  {
    assert |ts| == |ts.Keys|;
    if group != ts.Keys {
      var x :| x in ts.Keys && x !in group;
      Larger(group + {x}, ts.Keys);
    }
  }

  lemma {:induction false} Larger(a: set<Tid>, b: set<Tid>)
    requires a <= b
    ensures |a| <= |b|
    decreases a
  {
    if a != {} {
      var x :| x in a;
      Larger(a - {x}, b - {x});
    }
  }

  lemma OpenedCounted(ts: map<Tid, Phase>, serial: Tid)
    requires Distinct(ts) && forall x :: x in ts ==> HasKind(ts[x])
    ensures var ts' := Opened(ts, ts.Keys, serial);
            && ts'.Keys == ts.Keys && |ts'| == |ts|
            && Distinct(ts') && Starting(ts') == Starting(ts) && Ending(ts') == Ending(ts)
  {
    var ts' := Opened(ts, ts.Keys, serial);
    SameSize(ts, ts');
    assert forall x :: x in ts ==> HasKind(ts'[x]) && ts'[x].kind == ts[x].kind;
    assert Starting(ts') == Starting(ts) && Ending(ts') == Ending(ts);
  }

  lemma OpenedInside(ts: map<Tid, Phase>, serial: Tid)
    requires serial in ts && forall x :: x in ts ==> HasKind(ts[x])
    ensures var ts' := Opened(ts, ts.Keys, serial);
            && AllInside(ts') && InSecond(ts') == {} && Serials(ts') == {serial}
            && ts'[serial] == Serial(ts[serial].kind, Chosen)
  {
  }

  /** Everyone at the first wait, or about to be the last to arrive, is there for a reason. */
  lemma AllHere(ts: map<Tid, Phase>, t: Tid)
    requires t in ts && HasKind(ts[t]) && InFirst(ts) + {t} == ts.Keys
    ensures forall x :: x in ts ==> HasKind(ts[x])
  {
  }

  lemma FirstWithin(ts: map<Tid, Phase>)
    ensures InFirst(ts) <= ts.Keys && InSecond(ts) <= ts.Keys
  {
  }

  /** The last thread at the first wait opens the round. */
  lemma RoundOpens(w: World, t: Tid, serial: Tid)
    requires Invariant(w) && Can(w, ArriveFirst(t, serial))
    requires |GateAt(w, w.selected).waiters + {t}| == GateAt(w, w.selected).count
    ensures Invariant(Do(w, ArriveFirst(t, serial)))
  {
    hide Distinct, Starting, Ending, Opened, InFirst, InSecond, Serials, AllOutside, AllInside;
    IsApart(w, t);
    var group := GateAt(w, w.selected).waiters + {t};
    FirstWithin(w.threads);
    AllArrived(w.threads, group);
    AllHere(w.threads, t);
    OpenedCounted(w.threads, serial);
    OpenedInside(w.threads, serial);
    assert Together(Do(w, ArriveFirst(t, serial)));
  }

  lemma ArriveFirstKeeps(w: World, t: Tid, serial: Tid)
    requires Invariant(w) && Can(w, ArriveFirst(t, serial))
    ensures Invariant(Do(w, ArriveFirst(t, serial)))
  {
    hide Distinct, Starting, Ending, Opened, InFirst, AllOutside, AllInside;
    var group := GateAt(w, w.selected).waiters + {t};
    if |group| == GateAt(w, w.selected).count {
      RoundOpens(w, t, serial);
    } else {
      var w' := Do(w, ArriveFirst(t, serial));
      IsApart(w, t);
      assert w'.threads.Keys == w.threads.Keys;
      MovesCounted(w.threads, w'.threads, t);
      StaysOutside(w.threads, w'.threads, t);
      assert |w.threads| == |w.threads.Keys|;
      assert Apart(w');
    }
  }

  lemma AdvanceKeeps(w: World, t: Tid)
    requires Invariant(w) && Can(w, Advance(t))
    ensures Invariant(Do(w, Advance(t)))
  {
    hide Distinct, Starting, Ending, InSecond, Serials, AllInside;
    var w' := Do(w, Advance(t));
    IsTogether(w, t);
    assert w'.threads.Keys == w.threads.Keys;
    MovesCounted(w.threads, w'.threads, t);
    StaysInside(w.threads, w'.threads, t);
    SerialIs(w.threads, t);
    EndingFits(w.threads);
    assert Serves(w');
    assert Together(w');
  }

  lemma SerialIs(ts: map<Tid, Phase>, t: Tid)
    requires t in ts && ts[t].Serial?
    ensures t in Serials(ts) && t !in InSecond(ts)
  {
  }

  lemma EndingFits(ts: map<Tid, Phase>)
    ensures |Ending(ts)| <= |ts|
  {
    Larger(Ending(ts), ts.Keys);
    assert |ts| == |ts.Keys|;
  }

  // ----- the end of a round -----

  lemma {:induction false} ChildrenSize(ts: map<Tid, Phase>, group: set<Tid>)
    requires Distinct(ts) && group <= Starting(ts)
    ensures |Children(ts, group)| == |group|
    decreases group
  {
    if group == {} {
      assert Children(ts, group) == {};
    } else {
      var x :| x in group;
      ChildrenSize(ts, group - {x});
      assert Children(ts, group) == Children(ts, group - {x}) + {ts[x].kind.child};
    }
  }

  lemma ClosedKeys(ts: map<Tid, Phase>)
    requires forall x :: x in ts ==> HasKind(ts[x])
    ensures Closed(ts, ts.Keys).Keys == (ts.Keys - Ending(ts)) + Children(ts, ts.Keys)
    ensures Children(ts, Starting(ts)) == Children(ts, ts.Keys)
  {
  }

  lemma ClosedSize(ts: map<Tid, Phase>)
    requires Distinct(ts) && forall x :: x in ts ==> HasKind(ts[x])
    ensures |Closed(ts, ts.Keys)| == |ts| + |Starting(ts)| - |Ending(ts)|
  {
    hide Closed;
    var stay := ts.Keys - Ending(ts);
    ClosedKeys(ts);
    ChildrenSize(ts, Starting(ts));
    assert |Closed(ts, ts.Keys)| == |Closed(ts, ts.Keys).Keys| && |ts| == |ts.Keys|;
    assert stay !! Children(ts, ts.Keys);
  }

  /** The round over, everyone is outside. */
  lemma ClosedOutside(ts: map<Tid, Phase>)
    requires forall x :: x in ts ==> HasKind(ts[x])
    ensures var ts' := Closed(ts, ts.Keys);
            forall x :: x in ts' ==> ts'[x].Running? || ts'[x].Creating? || ts'[x].Unborn?
  {
  }

  lemma ClosedPhases(ts: map<Tid, Phase>, x: Tid)
    requires Distinct(ts) && (forall y :: y in ts ==> HasKind(ts[y])) && x in Closed(ts, ts.Keys)
    ensures var p := Closed(ts, ts.Keys)[x];
            if x in ts then p == Afterwards(ts[x]) else p == Unborn
  {
  }

  lemma ClosedChild(ts: map<Tid, Phase>, x: Tid)
    requires Distinct(ts) && x in ts && Starts(ts[x])
    ensures var c := ts[x].kind.child; c !in ts && c in Closed(ts, ts.Keys) && Closed(ts, ts.Keys)[c].Unborn?
  {
    assert ts[x].kind.child in Children(ts, ts.Keys);
  }

  lemma ClosedDistinct(ts: map<Tid, Phase>)
    requires Distinct(ts) && forall x :: x in ts ==> HasKind(ts[x])
    ensures Distinct(Closed(ts, ts.Keys))
  {
    hide Closed;
    var ts' := Closed(ts, ts.Keys);
    forall x | x in ts'
      ensures !Starts(ts'[x])
      ensures ts'[x].Creating? ==>
        x in ts && Starts(ts[x]) && ts[x].kind.child == ts'[x].child && ts'[x].child in Unborns(ts')
    {
      ClosedPhases(ts, x);
      if ts'[x].Creating? {
        ClosedChild(ts, x);
      }
    }
  }

  lemma AllSecond(ts: map<Tid, Phase>, t: Tid)
    requires t in ts && ts[t].Between? && InSecond(ts) + {t} == ts.Keys
    ensures (forall x :: x in ts ==> HasKind(ts[x])) && Serials(ts) == {}
  {
  }

  lemma OutsideAfter(ts: map<Tid, Phase>)
    requires forall x :: x in ts ==> ts[x].Running? || ts[x].Creating? || ts[x].Unborn?
    ensures AllOutside(ts) && NonePicked(ts) && Starting(ts) == {} && Ending(ts) == {} && InFirst(ts) == {}
  {
  }

  /** The last thread at the second wait ends the round. */
  lemma RoundEnds(w: World, t: Tid)
    requires Invariant(w) && Can(w, ArriveSecond(t))
    requires |GateAt(w, w.selected).waiters + {t}| == GateAt(w, w.selected).count
    ensures Invariant(Do(w, ArriveSecond(t)))
  {
    hide Distinct, Starting, Ending, Closed, Children, InFirst, InSecond, Serials, AllOutside, AllInside, NonePicked,
         Starts, Ends;
    var group := GateAt(w, w.selected).waiters + {t};
    IsTogether(w, t);
    FirstWithin(w.threads);
    AllArrived(w.threads, group);
    AllSecond(w.threads, t);
    var ts' := Closed(w.threads, w.threads.Keys);
    ClosedSize(w.threads);
    ClosedOutside(w.threads);
    OutsideAfter(ts');
    ClosedDistinct(w.threads);
    assert Apart(Do(w, ArriveSecond(t)));
  }

  lemma ArriveSecondKeeps(w: World, t: Tid)
    requires Invariant(w) && Can(w, ArriveSecond(t))
    ensures Invariant(Do(w, ArriveSecond(t)))
  {
    hide Distinct, Starting, Ending, Closed, InSecond, Serials, AllInside;
    var group := GateAt(w, w.selected).waiters + {t};
    if |group| == GateAt(w, w.selected).count {
      RoundEnds(w, t);
    } else {
      var w' := Do(w, ArriveSecond(t));
      IsTogether(w, t);
      assert w'.threads.Keys == w.threads.Keys;
      MovesCounted(w.threads, w'.threads, t);
      StaysInside(w.threads, w'.threads, t);
      NotSerial(w.threads, t);
      assert |w.threads| == |w.threads.Keys|;
      assert Serves(w');
      assert Together(w');
    }
  }

  lemma NotSerial(ts: map<Tid, Phase>, t: Tid)
    requires t in ts && !ts[t].Serial?
    ensures t !in Serials(ts)
  {
  }

  lemma CreateKeeps(w: World, t: Tid)
    requires Invariant(w) && Can(w, Create(t))
    ensures Invariant(Do(w, Create(t)))
  {
    hide Distinct, Starting, Ending, InFirst, AllOutside, NonePicked;
    IsApart(w, t);
    CreateCounted(w.threads, t);
    CreateOutside(w.threads, t);
    assert Apart(Do(w, Create(t)));
  }

  lemma CreateOutside(ts: map<Tid, Phase>, t: Tid)
    requires AllOutside(ts) && t in ts && ts[t].Creating? && ts[t].child in ts
    ensures var ts' := ts[ts[t].child := Running][t := Running];
            AllOutside(ts') && (NonePicked(ts) ==> NonePicked(ts'))
  {
  }

  lemma CreateCounted(ts: map<Tid, Phase>, t: Tid)
    requires Distinct(ts) && t in ts && ts[t].Creating?
    ensures var ts' := ts[ts[t].child := Running][t := Running];
            && Distinct(ts') && ts'.Keys == ts.Keys && |ts'| == |ts|
            && Starting(ts') == Starting(ts) && Ending(ts') == Ending(ts) && InFirst(ts') == InFirst(ts)
  {
    var c := ts[t].child;
    var ts' := ts[c := Running][t := Running];
    assert c in Unborns(ts);
    assert ts'.Keys == ts.Keys;
    SameSize(ts, ts');
    CreateDistinct(ts, t);
    CreateSets(ts, ts', t, c);
  }

  lemma CreateSets(ts: map<Tid, Phase>, ts': map<Tid, Phase>, t: Tid, c: Tid)
    requires t in ts && ts[t].Creating? && c in ts && ts[c].Unborn? && ts' == ts[c := Running][t := Running]
    ensures Starting(ts') == Starting(ts) && Ending(ts') == Ending(ts) && InFirst(ts') == InFirst(ts)
    ensures Unborns(ts') == Unborns(ts) - {c}
  {
  }

  lemma CreateDistinct(ts: map<Tid, Phase>, t: Tid)
    requires Distinct(ts) && t in ts && ts[t].Creating?
    ensures Distinct(ts[ts[t].child := Running][t := Running])
  {
    hide Unborns;
    var c := ts[t].child;
    var ts' := ts[c := Running][t := Running];
    UnbornIn(ts, c);
    CreateSets(ts, ts', t, c);
    forall x | x in ts' && ts'[x].Creating?
      ensures ts'[x].child in Unborns(ts')
    {
      assert x != t && x != c && ts'[x] == ts[x];
    }
  }

  lemma UnbornIn(ts: map<Tid, Phase>, c: Tid)
    requires c in Unborns(ts)
    ensures c in ts && ts[c].Unborn?
  {
  }

  /** Every step of every thread keeps the invariant. */
  lemma StepKeeps(w: World, s: Step)
    requires Invariant(w) && Can(w, s)
    ensures Invariant(Do(w, s))
  {
    hide Invariant, Do;
    match s
    case Request(t, k) => RequestKeeps(w, t, k);
    case Pick(t) => PickKeeps(w, t);
    case ArriveFirst(t, serial) => ArriveFirstKeeps(w, t, serial);
    case Advance(t) => AdvanceKeeps(w, t);
    case ArriveSecond(t) => ArriveSecondKeeps(w, t);
    case Create(t) => CreateKeeps(w, t);
  }

  // ----- whole runs -----

  /** The steps of any interleaving, in order. */
  predicate Possible(w: World, steps: seq<Step>)
    decreases |steps|
  {
    steps == [] || (Can(w, steps[0]) && Possible(Do(w, steps[0]), steps[1..]))
  }

  function After(w: World, steps: seq<Step>): World
    requires Possible(w, steps)
    decreases |steps|
  {
    if steps == [] then w else After(Do(w, steps[0]), steps[1..])
  }

  lemma {:induction false} RunKeeps(w: World, steps: seq<Step>)
    requires Invariant(w) && Possible(w, steps)
    ensures Invariant(After(w, steps))
    decreases |steps|
  {
    hide Invariant, Do, Can;
    if steps != [] {
      StepKeeps(w, steps[0]);
      RunKeeps(Do(w, steps[0]), steps[1..]);
    }
  }

  /** In every interleaving, while a thread collects or re-initializes, every other participant
      is between the two waits or blocked in the second, and no other collects; the barrier about
      to be re-initialized has no waiter. */
  lemma WorldIsStopped(main: Tid, steps: seq<Step>, t: Tid)
    requires Possible(Initial(main), steps)
    requires t in After(Initial(main), steps).threads && After(Initial(main), steps).threads[t].Serial?
    ensures var w := After(Initial(main), steps);
            && (forall x :: x in w.threads && x != t ==> w.threads[x].Between? || w.threads[x].Second?)
            && (w.threads[t].stage.Collected? ==> GateAt(w, Even(w.gcCount)).waiters == {})
  {
    hide Distinct, Counted;
    InitialInvariant(main);
    RunKeeps(Initial(main), steps);
    var w := After(Initial(main), steps);
    IsTogether(w, t);
    SerialIs(w.threads, t);
    forall x | x in w.threads && x != t
      ensures w.threads[x].Between? || w.threads[x].Second?
    {
      assert x !in Serials(w.threads);
    }
  }

  /** In every interleaving, when no round is going on, the barrier the next round will use counts
      exactly the participants: those that run, and those about to be created. */
  lemma NextBarrierCounts(main: Tid, steps: seq<Step>)
    requires Possible(Initial(main), steps)
    ensures var w := After(Initial(main), steps);
            AllOutside(w.threads) ==> GateAt(w, Even(w.gcCount)).count == |w.threads|
  {
    hide Distinct, Counted, Serves;
    InitialInvariant(main);
    RunKeeps(Initial(main), steps);
    var w := After(Initial(main), steps);
  }

  // ----- one collection a round -----

  /** A round has been opened for which nobody has started to collect. */
  ghost predicate Owed(w: World) { exists t :: t in w.threads && IsChosen(w.threads[t]) }

  predicate IsChosen(p: Phase) { p.Serial? && p.stage.Chosen? }

  predicate Opens(w: World, s: Step) {
    s.ArriveFirst? && |GateAt(w, w.selected).waiters + {s.t}| == GateAt(w, w.selected).count
  }

  function Rounds(w: World, steps: seq<Step>): nat
    requires Possible(w, steps)
    decreases |steps|
  {
    if steps == [] then 0 else (if Opens(w, steps[0]) then 1 else 0) + Rounds(Do(w, steps[0]), steps[1..])
  }

  ghost function Debt(w: World): nat { if Owed(w) then 1 else 0 }

  lemma StepPays(w: World, s: Step)
    requires Invariant(w) && Can(w, s)
    ensures var w' := Do(w, s);
            Debt(w') + w'.gcCount == Debt(w) + w.gcCount + if Opens(w, s) then 1 else 0
  {
    hide Invariant, Starting, Ending, Distinct;
    var w' := Do(w, s);
    StepKeeps(w, s);
    match s
    case ArriveFirst(t, serial) =>
      DebtOutside(w, t);
      if Opens(w, s) {
        OpeningOwes(w, t, serial);
      } else {
        assert Owed(w') ==> Owed(w);
      }
    case Advance(t) => AdvancePays(w, t);
    case ArriveSecond(t) => assert Owed(w') <==> Owed(w) by { SecondPays(w, t); }
    case _ =>
      DebtOutside(w, s.t);
      assert Owed(w') ==> Owed(w);
  }

  lemma DebtOutside(w: World, t: Tid)
    requires Invariant(w) && t in w.threads && Outside(w.threads[t])
    ensures Debt(w) == 0
  {
    hide Distinct, Counted;
    IsApart(w, t);
  }

  lemma OpeningOwes(w: World, t: Tid, serial: Tid)
    requires Invariant(w) && Can(w, ArriveFirst(t, serial)) && Opens(w, ArriveFirst(t, serial))
    ensures Owed(Do(w, ArriveFirst(t, serial)))
  {
    hide Distinct, Counted, InFirst;
    IsApart(w, t);
    FirstWithin(w.threads);
    AllArrived(w.threads, GateAt(w, w.selected).waiters + {t});
    AllHere(w.threads, t);
    var w' := Do(w, ArriveFirst(t, serial));
    assert IsChosen(w'.threads[serial]);
  }

  lemma AdvancePays(w: World, t: Tid)
    requires Invariant(w) && Can(w, Advance(t))
    ensures var w' := Do(w, Advance(t)); Debt(w') + w'.gcCount == Debt(w) + w.gcCount
  {
    hide Distinct, Counted;
    IsTogether(w, t);
    SerialIs(w.threads, t);
    assert Serials(w.threads) == {t};
    var w' := Do(w, Advance(t));
    assert forall x :: x in w.threads && x != t ==> x !in Serials(w.threads) && w'.threads[x] == w.threads[x];
    if w.threads[t].stage.Chosen? {
      assert IsChosen(w.threads[t]);
    }
  }

  lemma SecondPays(w: World, t: Tid)
    requires Invariant(w) && Can(w, ArriveSecond(t))
    ensures Owed(Do(w, ArriveSecond(t))) <==> Owed(w)
  {
    hide Distinct, Counted, Closed, InSecond, InFirst, Serves;
    var w', group := Do(w, ArriveSecond(t)), GateAt(w, w.selected).waiters + {t};
    IsTogether(w, t);
    if |group| == GateAt(w, w.selected).count {
      FirstWithin(w.threads);
      AllArrived(w.threads, group);
      AllSecond(w.threads, t);
      ClosedOutside(w.threads);
      assert forall x :: x in w.threads ==> x !in Serials(w.threads);
    } else {
      assert forall x :: x in w.threads && x != t ==> w'.threads[x] == w.threads[x];
    }
  }

  /** In every interleaving there is exactly one collection for every round that opens: as many
      have started as rounds have opened, but for the one whose collector is about to start. */
  lemma {:induction false} OneCollectionPerRound(w: World, steps: seq<Step>)
    requires Invariant(w) && Possible(w, steps)
    ensures After(w, steps).gcCount + Debt(After(w, steps)) == w.gcCount + Debt(w) + Rounds(w, steps)
    decreases |steps|
  {
    hide Invariant, Do, Can, Owed, Opens;
    if steps != [] {
      StepPays(w, steps[0]);
      StepKeeps(w, steps[0]);
      OneCollectionPerRound(Do(w, steps[0]), steps[1..]);
    }
  }

  // ----- every round ends -----

  ghost predicate HasParent(ts: map<Tid, Phase>, c: Tid) { exists x :: x in ts && ts[x] == Creating(c) }

  /** Every thread that is about to be created has the thread that creates it. */
  ghost predicate Fostered(ts: map<Tid, Phase>) { forall c :: c in ts && ts[c].Unborn? ==> HasParent(ts, c) }

  /** A thread that neither creates nor is to be created changes its phase to such a one. */
  lemma OneFostered(ts: map<Tid, Phase>, ts': map<Tid, Phase>, t: Tid)
    requires Fostered(ts) && t in ts && ts'.Keys == ts.Keys && forall x :: x in ts && x != t ==> ts'[x] == ts[x]
    requires !ts[t].Creating? && !ts'[t].Unborn?
    ensures Fostered(ts')
  {
    forall c | c in ts' && ts'[c].Unborn?
      ensures HasParent(ts', c)
    {
      assert HasParent(ts, c);
      var x :| x in ts && ts[x] == Creating(c);
      assert ts'[x] == Creating(c);
    }
  }

  lemma NoUnborn(ts: map<Tid, Phase>)
    requires forall x :: x in ts ==> !ts[x].Unborn?
    ensures Fostered(ts)
  {
  }

  lemma OpenedKinds(ts: map<Tid, Phase>, serial: Tid)
    requires forall x :: x in ts ==> HasKind(ts[x])
    ensures forall x :: x in Opened(ts, ts.Keys, serial) ==> !Opened(ts, ts.Keys, serial)[x].Unborn?
  {
  }

  lemma ClosedFostered(ts: map<Tid, Phase>)
    requires Distinct(ts) && forall x :: x in ts ==> HasKind(ts[x])
    ensures Fostered(Closed(ts, ts.Keys))
  {
    var ts' := Closed(ts, ts.Keys);
    forall c | c in ts' && ts'[c].Unborn?
      ensures HasParent(ts', c)
    {
      ClosedPhases(ts, c);
      var x :| x in ts && x in ts.Keys && Starts(ts[x]) && ts[x].kind.child == c;
      ClosedKeys(ts);
      assert x in ts';
      ClosedPhases(ts, x);
    }
  }

  lemma CreateFostered(ts: map<Tid, Phase>, t: Tid)
    requires Distinct(ts) && Fostered(ts) && t in ts && ts[t].Creating?
    ensures Fostered(ts[ts[t].child := Running][t := Running])
  {
    var ts' := ts[ts[t].child := Running][t := Running];
    forall c | c in ts' && ts'[c].Unborn?
      ensures HasParent(ts', c)
    {
      assert HasParent(ts, c);
      var x :| x in ts && ts[x] == Creating(c);
      UnbornIn(ts, ts[t].child);
      assert ts'[x] == Creating(c);
    }
  }

  lemma StepFosters(w: World, s: Step)
    requires Invariant(w) && Fostered(w.threads) && Can(w, s)
    ensures Fostered(Do(w, s).threads)
  {
    hide Starting, Ending, InFirst, InSecond, Fostered, Opened, Closed, Serves, AllInside, AllOutside;
    var w' := Do(w, s);
    match s
    case ArriveFirst(t, serial) =>
      IsApart(w, t) by {
        PhaseOutside(w.threads[t]);
      }
      if Opens(w, s) {
        FirstWithin(w.threads);
        AllArrived(w.threads, GateAt(w, w.selected).waiters + {t});
        AllHere(w.threads, t);
        OpenedKinds(w.threads, serial);
        NoUnborn(w'.threads);
      } else {
        OneFostered(w.threads, w'.threads, t);
      }
    case ArriveSecond(t) =>
      IsTogether(w, t);
      var group := GateAt(w, w.selected).waiters + {t};
      if |group| == GateAt(w, w.selected).count {
        FirstWithin(w.threads);
        AllArrived(w.threads, group);
        AllSecond(w.threads, t);
        ClosedFostered(w.threads);
      } else {
        OneFostered(w.threads, w'.threads, t);
      }
    case Create(t) => CreateFostered(w.threads, t);
    case _ => OneFostered(w.threads, w'.threads, s.t);
  }

  lemma PhaseOutside(p: Phase)
    ensures p.Picked? ==> Outside(p)
  {
  }

  lemma {:induction false} RunFosters(w: World, steps: seq<Step>)
    requires Invariant(w) && Fostered(w.threads) && Possible(w, steps)
    ensures Invariant(After(w, steps)) && Fostered(After(w, steps).threads)
    decreases |steps|
  {
    hide Invariant, Do, Can, Fostered;
    if steps != [] {
      StepKeeps(w, steps[0]);
      StepFosters(w, steps[0]);
      RunFosters(Do(w, steps[0]), steps[1..]);
    }
  }

  /** Some thread can go on without asking for a new round. */
  ghost predicate CanProceed(w: World) { exists s: Step :: !s.Request? && Can(w, s) }

  lemma ProceedsApart(w: World)
    requires Apart(w) && Distinct(w.threads) && Fostered(w.threads) && w.threads.Keys != {}
    ensures (exists t :: t in w.threads && w.threads[t].Running?) || CanProceed(w)
  {
    var t :| t in w.threads && t !in InFirst(w.threads);
    assert Outside(w.threads[t]);
    match w.threads[t]
    case Running =>
    case Pending(_) => assert Can(w, Pick(t));
    case Picked(_) => assert Can(w, ArriveFirst(t, t));
    case Creating(c) =>
      assert c in Unborns(w.threads);
      assert Can(w, Create(t));
    case Unborn =>
      assert HasParent(w.threads, t);
      var x :| x in w.threads && w.threads[x] == Creating(t);
      assert Can(w, Create(x));
  }

  lemma ProceedsTogether(w: World)
    requires Together(w)
    ensures CanProceed(w)
  {
    hide Serves;
    FirstWithin(w.threads);
    var t :| t in w.threads && t !in InSecond(w.threads);
    assert Inside(w.threads[t]);
    if w.threads[t].Serial? {
      assert Can(w, Advance(t));
    } else {
      assert Can(w, ArriveSecond(t));
    }
  }

  /** In every interleaving, as long as there is a thread, one is running, or one can go on with
      the round it asked for: no thread waits for a barrier that cannot open. */
  lemma NeverBlocked(main: Tid, steps: seq<Step>)
    requires Possible(Initial(main), steps) && After(Initial(main), steps).threads.Keys != {}
    ensures var w := After(Initial(main), steps);
            (exists t :: t in w.threads && w.threads[t].Running?) || CanProceed(w)
  {
    hide Apart, Together, Distinct, Counted, Fostered, CanProceed;
    InitialInvariant(main);
    NoUnborn(Initial(main).threads);
    RunFosters(Initial(main), steps);
    var w := After(Initial(main), steps);
    if Apart(w) {
      ProceedsApart(w);
    } else {
      ProceedsTogether(w);
    }
  }

  // The work left in a round.

  function InStage(ts: map<Tid, Phase>, stage: Stage): set<Tid> {
    set x | x in ts && ts[x].Serial? && ts[x].stage == stage
  }

  function Work(w: World): nat {
    |w.threads.Keys - InSecond(w.threads)| + 3 * |InStage(w.threads, Chosen)| + 2 * |InStage(w.threads, Collecting)|
    + |InStage(w.threads, Collected)|
  }

  lemma StagesMoved(ts: map<Tid, Phase>, ts': map<Tid, Phase>, t: Tid, stage: Stage)
    requires t in ts && ts'.Keys == ts.Keys && forall x :: x in ts && x != t ==> ts'[x] == ts[x]
    ensures InStage(ts', stage)
            == if ts'[t].Serial? && ts'[t].stage == stage then InStage(ts, stage) + {t} else InStage(ts, stage) - {t}
  {
  }

  lemma AdvanceWorks(w: World, t: Tid)
    requires Together(w) && Can(w, Advance(t))
    ensures Work(Do(w, Advance(t))) < Work(w)
  {
    hide InStage, InSecond, Serves;
    var w' := Do(w, Advance(t));
    assert w'.threads.Keys == w.threads.Keys;
    StaysInside(w.threads, w'.threads, t);
    SerialIs(w.threads, t);
    StageIs(w.threads, t);
    StagesMoved(w.threads, w'.threads, t, Chosen);
    StagesMoved(w.threads, w'.threads, t, Collecting);
    StagesMoved(w.threads, w'.threads, t, Collected);
    assert InSecond(w'.threads) == InSecond(w.threads);
  }

  lemma StageIs(ts: map<Tid, Phase>, t: Tid)
    requires t in ts
    ensures forall stage :: t in InStage(ts, stage) <==> ts[t].Serial? && ts[t].stage == stage
  {
  }

  predicate LeftAs(ts: map<Tid, Phase>, x: Tid, kind: Kind) {
    match kind
    case Alloc => x in ts && ts[x] == Running
    case Start(c) => x in ts && ts[x] == Creating(c) && c in ts && ts[c] == Unborn
    case End => x !in ts
  }

  /** Where a round left its participants: those that asked for memory run, those that end are
      gone, those that start a thread are about to create it, and nobody else is there. */
  ghost predicate RoundOver(ts: map<Tid, Phase>, ts': map<Tid, Phase>) {
    && (forall x :: x in ts ==> HasKind(ts[x]) && LeftAs(ts', x, ts[x].kind))
    && (forall x :: x in ts' && x !in ts ==> exists y :: y in ts && ts[y].kind == Start(x))
  }

  lemma ClosedOver(ts: map<Tid, Phase>)
    requires Distinct(ts) && forall x :: x in ts ==> HasKind(ts[x])
    ensures RoundOver(ts, Closed(ts, ts.Keys))
  {
    hide Closed, Distinct;
    var ts' := Closed(ts, ts.Keys);
    ClosedKeys(ts);
    forall x | x in ts
      ensures LeftAs(ts', x, ts[x].kind)
    {
      assert HasKind(ts[x]);
      EndsApart(ts, x);
      if x in ts' {
        ClosedPhases(ts, x);
      }
      if ts[x].kind.Start? {
        ClosedChild(ts, x);
      }
    }
    forall x | x in ts' && x !in ts
      ensures exists y :: y in ts && ts[y].kind == Start(x)
    {
      var y :| y in ts && Starts(ts[y]) && ts[y].kind.child == x;
      assert ts[y].kind == Start(x);
    }
  }

  /** A thread that ends is not one of those to be started. */
  lemma EndsApart(ts: map<Tid, Phase>, x: Tid)
    requires Distinct(ts) && x in ts
    ensures x in Ending(ts) <==> Ends(ts[x])
    ensures x !in Children(ts, ts.Keys)
  {
  }

  lemma SecondWorks(w: World, t: Tid)
    requires Invariant(w) && Together(w) && Can(w, ArriveSecond(t))
    ensures var w' := Do(w, ArriveSecond(t));
            (Together(w') && Work(w') < Work(w)) || RoundOver(w.threads, w'.threads)
  {
    hide InStage, InSecond, Serves, Closed, AllInside, Distinct, Counted, Apart;
    var w', group := Do(w, ArriveSecond(t)), GateAt(w, w.selected).waiters + {t};
    FirstWithin(w.threads);
    if |group| == GateAt(w, w.selected).count {
      AllArrived(w.threads, group);
      AllSecond(w.threads, t);
      ClosedOver(w.threads);
    } else {
      ArriveSecondKeeps(w, t);
      assert w'.threads.Keys == w.threads.Keys;
      StaysInside(w.threads, w'.threads, t);
      StageIs(w.threads, t);
      StagesMoved(w.threads, w'.threads, t, Chosen);
      StagesMoved(w.threads, w'.threads, t, Collecting);
      StagesMoved(w.threads, w'.threads, t, Collected);
      NotSecond(w.threads, t);
      assert w.threads.Keys - InSecond(w.threads) == (w.threads.Keys - InSecond(w'.threads)) + {t};
      SecondInside(w', t);
    }
  }

  lemma NotSecond(ts: map<Tid, Phase>, t: Tid)
    requires t in ts && ts[t].Between?
    ensures t !in InSecond(ts)
  {
  }

  lemma SecondInside(w: World, t: Tid)
    requires Invariant(w) && t in w.threads && w.threads[t].Second?
    ensures Together(w)
  {
    IsTogether(w, t);
  }

  /** While a round is going on, only its own steps are possible. */
  lemma OnlyRound(w: World, s: Step)
    requires Together(w) && Can(w, s)
    ensures s.Advance? || s.ArriveSecond?
  {
    hide Serves, InSecond;
    assert Inside(w.threads[s.t]);
  }

  /** Each of them leaves less work, or ends the round. */
  lemma StepWorks(w: World, s: Step)
    requires Invariant(w) && Together(w) && Can(w, s)
    ensures var w' := Do(w, s);
            (Together(w') && Work(w') < Work(w)) || RoundOver(w.threads, w'.threads)
  {
    hide Together, Work, RoundOver, Distinct, Counted, Apart;
    OnlyRound(w, s);
    if s.Advance? {
      AdvanceWorks(w, s.t);
      AdvanceKeeps(w, s.t);
      AdvanceInside(w, s.t);
    } else {
      SecondWorks(w, s.t);
    }
  }

  lemma AdvanceInside(w: World, t: Tid)
    requires Can(w, Advance(t)) && Invariant(Do(w, Advance(t)))
    ensures Together(Do(w, Advance(t)))
  {
    hide Distinct, Counted, Apart, Together;
    IsTogether(Do(w, Advance(t)), t);
  }

  /** A round that is going on ends: after at most as many steps as there is work left its
      participants run, are gone, or are about to create. */
  lemma {:induction false} RoundFinishes(w: World, steps: seq<Step>) returns (k: nat)
    requires Invariant(w) && Together(w) && Possible(w, steps) && |steps| >= Work(w)
    ensures 0 < k <= Work(w) && Possible(w, steps[..k]) && Possible(w, steps[..k - 1])
    ensures Together(After(w, steps[..k - 1]))
    ensures RoundOver(After(w, steps[..k - 1]).threads, After(w, steps[..k]).threads)
    decreases |steps|
  {
    hide Together, Work, RoundOver, Invariant, Do, Can;
    WorkLeft(w);
    var w' := Do(w, steps[0]);
    StepWorks(w, steps[0]);
    StepKeeps(w, steps[0]);
    if RoundOver(w.threads, w'.threads) {
      k := 1;
      assert steps[..1][1..] == [] && steps[..0] == [];
    } else {
      var j := RoundFinishes(w', steps[1..]);
      k := j + 1;
      assert steps[..k][0] == steps[0] && steps[..k][1..] == steps[1..][..j];
      assert j > 0 && steps[..k - 1][0] == steps[0] && steps[..k - 1][1..] == steps[1..][..j - 1];
    }
  }

  lemma WorkLeft(w: World)
    requires Together(w)
    ensures Work(w) > 0
  {
    hide Serves;
    FirstWithin(w.threads);
    var t :| t in w.threads && t !in InSecond(w.threads);
    assert t in w.threads.Keys - InSecond(w.threads);
  }

  /** Every round that opens is then going on, and so ends. */
  lemma OpensTogether(w: World, s: Step)
    requires Invariant(w) && Can(w, s) && Opens(w, s)
    ensures Invariant(Do(w, s)) && Together(Do(w, s))
  {
    hide Distinct, Counted, InFirst, Serves;
    StepKeeps(w, s);
    IsApart(w, s.t);
    FirstWithin(w.threads);
    AllArrived(w.threads, GateAt(w, w.selected).waiters + {s.t});
    AllHere(w.threads, s.t);
    IsTogether(Do(w, s), s.serial);
  }

  // ----- a thread's life -----

  ghost predicate Leads(w: World, w': World) { exists steps :: Possible(w, steps) && After(w, steps) == w' }

  lemma {:induction false} LeadsOn(w: World, steps: seq<Step>, s: Step)
    requires Possible(w, steps) && Can(After(w, steps), s)
    ensures Possible(w, steps + [s]) && After(w, steps + [s]) == Do(After(w, steps), s)
    decreases |steps|
  {
    hide Can, Do;
    if steps == [] {
      assert steps + [s] == [s] && [s][1..] == [];
    } else {
      assert (steps + [s])[0] == steps[0] && (steps + [s])[1..] == steps[1..] + [s];
      LeadsOn(Do(w, steps[0]), steps[1..], s);
    }
  }

  /** One step more. */
  lemma LeadsTo(w: World, w': World, s: Step)
    requires Leads(w, w') && Can(w', s)
    ensures Leads(w, Do(w', s))
  {
    hide Can, Do;
    var steps :| Possible(w, steps) && After(w, steps) == w';
    LeadsOn(w, steps, s);
  }

  lemma LeadsNowhere(w: World)
    ensures Leads(w, w)
  {
    assert Possible(w, []) && After(w, []) == w;
  }

  /** The last to arrive at the first wait, told to collect, does so, and sets up the next round. */
  lemma Collects(w: World, w': World, t: Tid)
    requires Leads(w, w') && t in w'.threads && w'.threads[t].Serial? && w'.threads[t].stage.Chosen? && w'.total >= 0
    ensures Leads(w, SetGate(w', Even(w'.gcCount + 1), Gate(w'.total, {})).(gcCount := w'.gcCount + 1,
                      threads := w'.threads[t := Between(w'.threads[t].kind)]))
  {
    hide Leads, Opened, Closed;
    var k := w'.threads[t].kind;
    LeadsTo(w, w', Advance(t));
    var w1 := Do(w', Advance(t));
    LeadsTo(w, w1, Advance(t));
    var w2 := Do(w1, Advance(t));
    LeadsTo(w, w2, Advance(t));
    assert w'.threads[t := Serial(k, Collecting)][t := Serial(k, Collected)][t := Between(k)]
           == w'.threads[t := Between(k)];
  }

  function Grown(main: Tid, child: Tid): World {
    World(map[main := Running, child := Running], 2, 1, true, Gate(1, {}), Gate(2, {}))
  }

  /** The main thread can start a thread: one round, with one collection. */
  lemma ThreadStarts(main: Tid, child: Tid)
    requires main != child
    ensures Leads(Initial(main), Grown(main, child))
  {
    hide Leads;
    var k, w := Start(child), Initial(main);
    LeadsNowhere(w);
    LeadsTo(w, w, Request(main, k));
    var w1 := Do(w, Request(main, k));
    assert w1 == w.(threads := map[main := Pending(k)], total := 2);
    LeadsTo(w, w1, Pick(main));
    var w2 := Do(w1, Pick(main));
    assert w2 == w1.(threads := map[main := Picked(k)]);
    LeadsTo(w, w2, ArriveFirst(main, main));
    var w3 := Do(w2, ArriveFirst(main, main));
    assert {} + {main} == {main};
    assert w3 == w1.(threads := map[main := Serial(k, Chosen)]);
    Collects(w, w3, main);
    var w6 := World(map[main := Between(k)], 2, 1, true, Gate(1, {}), Gate(2, {}));
    assert w3.threads[main := Between(k)] == map[main := Between(k)];
    LeadsTo(w, w6, ArriveSecond(main));
    var w7 := Do(w6, ArriveSecond(main));
    assert w7.threads == map[main := Creating(child), child := Unborn];
    LeadsTo(w, w7, Create(main));
    assert Do(w7, Create(main)) == Grown(main, child);
  }

  /** Then the new thread can end, while the other allocates: another round, with one collection. */
  lemma ThreadEnds(main: Tid, child: Tid)
    requires main != child
    ensures Leads(Grown(main, child), World(map[main := Running], 1, 2, false, Gate(1, {}), Gate(2, {})))
  {
    hide Leads;
    var w := Grown(main, child);
    var w1 := ThreadsArrive(main, child);
    Collects(w, w1, child);
    var w2 := World(map[main := Between(Alloc), child := Between(End)], 1, 2, false, Gate(1, {}), Gate(2, {}));
    assert w1.threads[child := Between(End)] == w2.threads;
    LeadsTo(w, w2, ArriveSecond(main));
    var w3 := Do(w2, ArriveSecond(main));
    assert {} + {main} == {main} && {main} + {child} == {main, child};
    LeadsTo(w, w3, ArriveSecond(child));
    assert Do(w3, ArriveSecond(child)).threads == map[main := Running];
  }

  lemma ThreadsArrive(main: Tid, child: Tid) returns (w': World)
    requires main != child
    ensures w'.threads == map[main := Between(Alloc), child := Serial(End, Chosen)]
    ensures w' == World(w'.threads, 1, 1, false, Gate(1, {}), Gate(2, {}))
    ensures Leads(Grown(main, child), w')
  {
    hide Leads;
    var w := Grown(main, child);
    LeadsNowhere(w);
    LeadsTo(w, w, Request(main, Alloc));
    var w1 := Do(w, Request(main, Alloc));
    LeadsTo(w, w1, Request(child, End));
    var w2 := Do(w1, Request(child, End));
    LeadsTo(w, w2, Pick(main));
    var w3 := Do(w2, Pick(main));
    LeadsTo(w, w3, Pick(child));
    var w4 := Do(w3, Pick(child));
    assert w4.threads == map[main := Picked(Alloc), child := Picked(End)];
    LeadsTo(w, w4, ArriveFirst(main, main));
    var w5 := Do(w4, ArriveFirst(main, main));
    assert {} + {main} == {main} && {main} + {child} == {main, child};
    LeadsTo(w, w5, ArriveFirst(child, child));
    w' := Do(w5, ArriveFirst(child, child));
    assert w'.threads == map[main := Between(Alloc), child := Serial(End, Chosen)];
  }
}
