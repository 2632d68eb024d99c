/** The mark and sweep collector (src/interpreter/garbage_collector.h): recursive visits stamp
    objects with the version of the collection, over a graph that may be cyclic; the sweep keeps
    what is stamped. */
module Collector {

  /** A register as the collector sees it: numbers and native functions refer to nothing. */
  datatype Register = Plain | Ref(obj: Object?)

  /** An interpreter state: its contexts, the operand stack above its start, and whether it was
      removed as a root. */
  datatype State = State(rootContext: Object?, currentContext: Object?, stack: seq<Register>, removed: bool)

  /** The part of an object that the collector follows, by type. A bucket may not exist. */
  datatype Body =
    | Properties(buckets: seq<Bucket>)
    | Context(parent: Object?, caller: Object?, locals: seq<Register>)
    | Instance(savedState: State)
    | FunctionRef(scope: Object?, responsible: State)
    | Opaque

  datatype Bucket = Missing | Bucket(values: seq<Register>)

  class Object {
    var gcVersion: nat
    var body: Body

    constructor (body: Body)
      ensures this.body == body && gcVersion == 0
    {
      this.body, gcVersion := body, 0;
    }
  }

  // ----- what refers to what -----

  function OneRoot(o: Object?): set<Object> { if o == null then {} else {o} }

  function RegisterRoots(r: Register): set<Object> { if r.Ref? then OneRoot(r.obj) else {} }

  function RegistersRoots(rs: seq<Register>): set<Object> {
    if rs == [] then {} else RegisterRoots(rs[0]) + RegistersRoots(rs[1..])
  }

  function StateRoots(s: State): set<Object> {
    OneRoot(s.currentContext) + OneRoot(s.rootContext) + RegistersRoots(s.stack)
  }

  function BucketsRoots(bs: seq<Bucket>): set<Object> {
    if bs == [] then {} else (if bs[0].Bucket? then RegistersRoots(bs[0].values) else {}) + BucketsRoots(bs[1..])
  }

  /** The first two registers of a frame, 0 and this, are not followed. */
  function Followed(locals: seq<Register>): seq<Register> { if |locals| <= 2 then [] else locals[2..] }

  function BodyRoots(b: Body): set<Object> {
    match b
    case Properties(buckets) => BucketsRoots(buckets)
    case Context(parent, caller, locals) => RegistersRoots(Followed(locals)) + OneRoot(parent) + OneRoot(caller)
    case Instance(s) => StateRoots(s)
    case FunctionRef(scope, s) => OneRoot(scope) + StateRoots(s)
    case Opaque => {}
  }

  function StatesRoots(ss: seq<State>): set<Object> {
    if ss == [] then {} else (if ss[0].removed then {} else StateRoots(ss[0])) + StatesRoots(ss[1..])
  }

  function StaticsRoots(statics: seq<seq<Register>>): set<Object> {
    if statics == [] then {} else RegistersRoots(statics[0]) + StaticsRoots(statics[1..])
  }

  /** The objects an object refers to. */
  function Successors(o: Object): set<Object>
    reads o`body
  {
    BodyRoots(o.body)
  }

  /** No reference leaves the heap. */
  ghost predicate Closed(heap: set<Object>)
    reads heap`body
  {
    forall o :: o in heap ==> Successors(o) <= heap
  }

  ghost function Marked(heap: set<Object>, v: nat): set<Object>
    reads heap`gcVersion
  {
    set o | o in heap && o.gcVersion == v
  }

  /** What marking from some roots has done: versions only became v; the roots are marked;
      everything newly marked has its successors marked, and is in any closed set around the
      roots, such as r. */
  twostate predicate MarkedFrom(heap: set<Object>, v: nat, roots: set<Object>, r: set<Object>)
    reads heap
  {
    && (forall o :: o in heap ==> o.gcVersion == v || o.gcVersion == old(o.gcVersion))
    && (forall o :: o in heap ==> o.body == old(o.body))
    && roots <= Marked(heap, v)
    && (forall o :: o in Marked(heap, v) - old(Marked(heap, v)) ==> Successors(o) <= Marked(heap, v) && o in r)
  }

  ghost predicate Visitable(heap: set<Object>, r: set<Object>, roots: set<Object>)
    reads heap`body
  {
    Closed(heap) && r <= heap && roots <= r && forall o :: o in r ==> Successors(o) <= r
  }

  method VisitObject(o: Object?, v: nat, ghost heap: set<Object>, ghost r: set<Object>)
    requires Visitable(heap, r, OneRoot(o))
    modifies heap`gcVersion
    ensures MarkedFrom(heap, v, OneRoot(o), r)
    decreases heap - Marked(heap, v), 0
  {
    if o == null || o.gcVersion == v {
      return;
    }
    ghost var unmarked := heap - Marked(heap, v);
    o.gcVersion := v;
    assert o in unmarked && heap - Marked(heap, v) <= unmarked && o !in heap - Marked(heap, v);
    match o.body
    case Properties(_) => VisitObjectWithMap(o, v, heap, r);
    case Context(_, _, _) => VisitContext(o, v, heap, r);
    case Instance(s) => VisitState(s, v, heap, r);
    case FunctionRef(_, _) => VisitFunctionRef(o, v, heap, r);
    case Opaque =>
  }

  method VisitRegister(reg: Register, v: nat, ghost heap: set<Object>, ghost r: set<Object>)
    requires Visitable(heap, r, RegisterRoots(reg))
    modifies heap`gcVersion
    ensures MarkedFrom(heap, v, RegisterRoots(reg), r)
    decreases heap - Marked(heap, v), 1
  {
    if reg.Ref? {
      VisitObject(reg.obj, v, heap, r);
    }
  }

  method VisitRegisters(regs: seq<Register>, v: nat, ghost heap: set<Object>, ghost r: set<Object>)
    requires Visitable(heap, r, RegistersRoots(regs))
    modifies heap`gcVersion
    ensures MarkedFrom(heap, v, RegistersRoots(regs), r)
    decreases heap - Marked(heap, v), 2
  {
    var i := 0;
    while i < |regs|
      invariant 0 <= i <= |regs|
      invariant Visitable(heap, r, RegistersRoots(regs[i..]))
      invariant MarkedFrom(heap, v, {}, r) && RegistersRoots(regs) <= RegistersRoots(regs[i..]) + Marked(heap, v)
    {
      assert regs[i..][1..] == regs[i + 1..];
      VisitRegister(regs[i], v, heap, r);
      i := i + 1;
    }
  }

  method VisitState(s: State, v: nat, ghost heap: set<Object>, ghost r: set<Object>)
    requires Visitable(heap, r, StateRoots(s))
    modifies heap`gcVersion
    ensures MarkedFrom(heap, v, StateRoots(s), r)
    decreases heap - Marked(heap, v), 3
  {
    VisitObject(s.currentContext, v, heap, r);
    VisitObject(s.rootContext, v, heap, r);
    VisitRegisters(s.stack, v, heap, r);
  }

  method VisitContext(o: Object, v: nat, ghost heap: set<Object>, ghost r: set<Object>)
    requires o.body.Context? && Visitable(heap, r, BodyRoots(o.body))
    modifies heap`gcVersion
    ensures MarkedFrom(heap, v, BodyRoots(o.body), r)
    decreases heap - Marked(heap, v), 4
  {
    VisitRegisters(Followed(o.body.locals), v, heap, r);
    VisitObject(o.body.parent, v, heap, r);
    VisitObject(o.body.caller, v, heap, r);
  }

  method VisitFunctionRef(o: Object, v: nat, ghost heap: set<Object>, ghost r: set<Object>)
    requires o.body.FunctionRef? && Visitable(heap, r, BodyRoots(o.body))
    modifies heap`gcVersion
    ensures MarkedFrom(heap, v, BodyRoots(o.body), r)
    decreases heap - Marked(heap, v), 4
  {
    VisitObject(o.body.scope, v, heap, r);
    VisitState(o.body.responsible, v, heap, r);
  }

  method VisitObjectWithMap(o: Object, v: nat, ghost heap: set<Object>, ghost r: set<Object>)
    requires o.body.Properties? && Visitable(heap, r, BodyRoots(o.body))
    modifies heap`gcVersion
    ensures MarkedFrom(heap, v, BodyRoots(o.body), r)
    decreases heap - Marked(heap, v), 4
  {
    hide Successors, BucketsRoots, RegistersRoots;
    var buckets := o.body.buckets;
    var i := 0;
    assert buckets[0..] == buckets;
    while i < |buckets|
      invariant 0 <= i <= |buckets|
      invariant Visitable(heap, r, BucketsRoots(buckets[i..]))
      invariant MarkedFrom(heap, v, {}, r) && BucketsRoots(buckets) <= BucketsRoots(buckets[i..]) + Marked(heap, v)
    {
      BucketUnfolds(buckets, i);
      if buckets[i].Bucket? {
        VisitRegisters(buckets[i].values, v, heap, r);
      }
      i := i + 1;
    }
    NoBuckets(buckets[i..]);
  }

  lemma BucketUnfolds(bs: seq<Bucket>, i: nat)
    requires i < |bs|
    ensures BucketsRoots(bs[i..])
            == (if bs[i].Bucket? then RegistersRoots(bs[i].values) else {}) + BucketsRoots(bs[i + 1..])
  {
    assert bs[i..][1..] == bs[i + 1..];
  }

  lemma NoBuckets(bs: seq<Bucket>)
    requires bs == []
    ensures BucketsRoots(bs) == {}
  {
  }

  // ----- reachability -----

  ghost function Next(heap: set<Object>, s: set<Object>): set<Object>
    reads heap`body
  {
    s + set o, x | o in s * heap && x in Successors(o) :: x
  }

  /** What can be reached from the roots over at most n references. */
  ghost function Within(heap: set<Object>, roots: set<Object>, n: nat): set<Object>
    reads heap`body
  {
    if n == 0 then roots else Next(heap, Within(heap, roots, n - 1))
  }

  ghost predicate Reachable(heap: set<Object>, roots: set<Object>, o: Object)
    reads heap`body
  {
    exists n: nat :: o in Within(heap, roots, n)
  }

  ghost function ReachableSet(heap: set<Object>, roots: set<Object>): set<Object>
    reads heap`body
  {
    set o | o in heap && Reachable(heap, roots, o)
  }

  lemma {:induction false} WithinHeap(heap: set<Object>, roots: set<Object>, n: nat)
    requires Closed(heap) && roots <= heap
    ensures Within(heap, roots, n) <= heap
  {
    if n > 0 {
      WithinHeap(heap, roots, n - 1);
    }
  }

  /** What is reachable is a closed set around the roots. */
  lemma ReachableCloses(heap: set<Object>, roots: set<Object>)
    requires Closed(heap) && roots <= heap
    ensures Visitable(heap, ReachableSet(heap, roots), roots)
  {
    forall o | o in roots
      ensures Reachable(heap, roots, o)
    {
      assert o in Within(heap, roots, 0);
    }
    forall o, x | o in ReachableSet(heap, roots) && x in Successors(o)
      ensures x in ReachableSet(heap, roots)
    {
      var n: nat :| o in Within(heap, roots, n);
      assert x in Within(heap, roots, n + 1);
    }
  }

  /** A set around the roots that its references do not leave holds all that is reachable. */
  lemma {:induction false} WithinClosed(heap: set<Object>, roots: set<Object>, s: set<Object>, n: nat)
    requires roots <= s && forall o :: o in s ==> Successors(o) <= s
    ensures Within(heap, roots, n) <= s
  {
    if n > 0 {
      WithinClosed(heap, roots, s, n - 1);
    }
  }

  /** Marks that cover the roots and their own successors, and mark nothing unreachable, are
      the reachable objects. */
  lemma MarkedIsReachable(heap: set<Object>, v: nat, roots: set<Object>)
    requires Closed(heap) && roots <= Marked(heap, v) <= ReachableSet(heap, roots)
    requires forall o :: o in Marked(heap, v) ==> Successors(o) <= Marked(heap, v)
    ensures Marked(heap, v) == ReachableSet(heap, roots)
  {
    hide Within, Successors;
    forall o | o in ReachableSet(heap, roots)
      ensures o in Marked(heap, v)
    {
      var n: nat :| o in Within(heap, roots, n);
      WithinClosed(heap, roots, Marked(heap, v), n);
    }
  }

  // ----- references by position -----

  predicate Holds(rs: seq<Register>, i: nat, x: Object) { i < |rs| && rs[i] == Ref(x) }

  predicate StateRefers(s: State, x: Object) {
    s.currentContext == x || s.rootContext == x || exists i :: 0 <= i < |s.stack| && Holds(s.stack, i, x)
  }

  /** A context refers to its parent, its caller, and what its registers from 2 on hold; a script
      object to the values in its buckets; a function to its scope and its state; an instance to
      its state. */
  predicate Refers(o: Object, x: Object)
    reads o`body
  {
    match o.body
    case Properties(buckets) =>
      exists h, j :: 0 <= h < |buckets| && buckets[h].Bucket? && 0 <= j < |buckets[h].values|
                     && Holds(buckets[h].values, j, x)
    case Context(parent, caller, locals) =>
      parent == x || caller == x || exists i :: 2 <= i < |locals| && Holds(locals, i, x)
    case Instance(s) => StateRefers(s, x)
    case FunctionRef(scope, s) => scope == x || StateRefers(s, x)
    case Opaque => false
  }

  /** A state that is not removed, or a static variable, refers to x. */
  predicate IsRoot(states: seq<State>, statics: seq<seq<Register>>, x: Object) {
    || (exists k :: 0 <= k < |states| && !states[k].removed && StateRefers(states[k], x))
    || (exists k, i :: 0 <= k < |statics| && 0 <= i < |statics[k]| && Holds(statics[k], i, x))
  }

  lemma {:induction false} RegistersHold(rs: seq<Register>, x: Object)
    ensures x in RegistersRoots(rs) <==> exists i :: 0 <= i < |rs| && Holds(rs, i, x)
  {
    if rs != [] {
      RegistersHold(rs[1..], x);
      if rs[0] == Ref(x) {
        assert Holds(rs, 0, x);
      }
      if i :| 0 <= i < |rs[1..]| && Holds(rs[1..], i, x) {
        assert Holds(rs, i + 1, x);
      }
      if i :| 0 <= i < |rs| && Holds(rs, i, x) {
        assert i > 0 ==> Holds(rs[1..], i - 1, x);
      }
    }
  }

  lemma StateHolds(s: State, x: Object)
    ensures x in StateRoots(s) <==> StateRefers(s, x)
  {
    RegistersHold(s.stack, x);
  }

  predicate BucketHolds(bs: seq<Bucket>, h: nat, x: Object) {
    h < |bs| && bs[h].Bucket? && exists j :: 0 <= j < |bs[h].values| && Holds(bs[h].values, j, x)
  }

  lemma {:induction false} BucketsHold(bs: seq<Bucket>, x: Object)
    ensures x in BucketsRoots(bs) <==> exists h :: 0 <= h < |bs| && BucketHolds(bs, h, x)
  {
    if bs != [] {
      BucketsHold(bs[1..], x);
      if bs[0].Bucket? {
        RegistersHold(bs[0].values, x);
      }
      if x in BucketsRoots(bs) && x !in BucketsRoots(bs[1..]) {
        assert BucketHolds(bs, 0, x);
      }
      if h :| 0 <= h < |bs[1..]| && BucketHolds(bs[1..], h, x) {
        assert BucketHolds(bs, h + 1, x);
      }
      if h :| 0 <= h < |bs| && BucketHolds(bs, h, x) {
        assert h > 0 ==> BucketHolds(bs[1..], h - 1, x);
      }
    }
  }

  /** What the visits follow are exactly these references. */
  lemma SuccessorsExact(o: Object, x: Object)
    ensures x in Successors(o) <==> Refers(o, x)
  {
    match o.body
    case Properties(buckets) =>
      BucketsHold(buckets, x);
      assert forall h :: 0 <= h < |buckets| ==>
        (BucketHolds(buckets, h, x) <==>
          buckets[h].Bucket? && exists j :: 0 <= j < |buckets[h].values| && Holds(buckets[h].values, j, x));
    case Context(_, _, locals) =>
      FollowedHold(locals, x);
    case Instance(s) => StateHolds(s, x);
    case FunctionRef(_, s) => StateHolds(s, x);
    case Opaque =>
  }

  lemma FollowedHold(locals: seq<Register>, x: Object)
    ensures x in RegistersRoots(Followed(locals)) <==> exists i :: 2 <= i < |locals| && Holds(locals, i, x)
  {
    var rs := Followed(locals);
    RegistersHold(rs, x);
    if i :| 0 <= i < |rs| && Holds(rs, i, x) {
      assert Holds(locals, i + 2, x);
    }
    if i :| 2 <= i < |locals| && Holds(locals, i, x) {
      assert Holds(rs, i - 2, x);
    }
  }

  lemma {:induction false} StatesHold(ss: seq<State>, x: Object)
    ensures x in StatesRoots(ss) <==> exists k :: 0 <= k < |ss| && !ss[k].removed && StateRefers(ss[k], x)
  {
    if ss != [] {
      StatesHold(ss[1..], x);
      StateHolds(ss[0], x);
      if k :| 0 <= k < |ss[1..]| && !ss[1..][k].removed && StateRefers(ss[1..][k], x) {
        assert !ss[k + 1].removed && StateRefers(ss[k + 1], x);
      }
      if k :| 0 <= k < |ss| && !ss[k].removed && StateRefers(ss[k], x) {
        assert k > 0 ==> !ss[1..][k - 1].removed && StateRefers(ss[1..][k - 1], x);
      }
    }
  }

  lemma {:induction false} StaticsHold(statics: seq<seq<Register>>, x: Object)
    ensures x in StaticsRoots(statics)
            <==> exists k, i :: 0 <= k < |statics| && 0 <= i < |statics[k]| && Holds(statics[k], i, x)
  {
    if statics != [] {
      var rest := statics[1..];
      StaticsHold(rest, x);
      RegistersHold(statics[0], x);
      if k, i :| 0 <= k < |rest| && 0 <= i < |rest[k]| && Holds(rest[k], i, x) {
        assert Holds(statics[k + 1], i, x);
      }
      if k, i :| 0 <= k < |statics| && 0 <= i < |statics[k]| && Holds(statics[k], i, x) {
        assert k > 0 ==> Holds(rest[k - 1], i, x);
      }
    }
  }

  /** A path of references from a root to its last object. */
  ghost predicate Path(heap: set<Object>, states: seq<State>, statics: seq<seq<Register>>, p: seq<Object>)
    reads heap`body
    ensures Path(heap, states, statics, p) ==> p != []
  {
    && p != [] && (forall k :: 0 <= k < |p| ==> p[k] in heap) && IsRoot(states, statics, p[0])
    && forall k :: 0 <= k < |p| - 1 ==> p[k] in heap && Refers(p[k], p[k + 1])
  }

  lemma {:induction false} WithinPath(heap: set<Object>, states: seq<State>, statics: seq<seq<Register>>, n: nat,
                                      o: Object)
    requires Closed(heap) && StatesRoots(states) + StaticsRoots(statics) <= heap
    requires o in Within(heap, StatesRoots(states) + StaticsRoots(statics), n)
    ensures exists p :: Path(heap, states, statics, p) && p[|p| - 1] == o
  {
    hide Refers, Successors, StatesRoots, StaticsRoots, IsRoot;
    var roots := StatesRoots(states) + StaticsRoots(statics);
    WithinHeap(heap, roots, n);
    if n == 0 {
      RootsExact(states, statics, o);
      assert Path(heap, states, statics, [o]);
    } else {
      WithinHeap(heap, roots, n - 1);
      if o in Within(heap, roots, n - 1) {
        WithinPath(heap, states, statics, n - 1, o);
      } else {
        var q :| q in Within(heap, roots, n - 1) && o in Successors(q);
        WithinPath(heap, states, statics, n - 1, q);
        var p :| Path(heap, states, statics, p) && p[|p| - 1] == q;
        SuccessorsExact(q, o);
        assert Path(heap, states, statics, p + [o]);
      }
    }
  }

  lemma RootsExact(states: seq<State>, statics: seq<seq<Register>>, x: Object)
    ensures x in StatesRoots(states) + StaticsRoots(statics) <==> IsRoot(states, statics, x)
  {
    StatesHold(states, x);
    StaticsHold(statics, x);
  }

  lemma {:induction false} PathWithin(heap: set<Object>, states: seq<State>, statics: seq<seq<Register>>,
                                      p: seq<Object>)
    requires Path(heap, states, statics, p)
    ensures p[|p| - 1] in Within(heap, StatesRoots(states) + StaticsRoots(statics), |p| - 1)
    decreases |p|
  {
    hide Refers, Successors, StatesRoots, StaticsRoots, IsRoot;
    if |p| == 1 {
      RootsExact(states, statics, p[0]);
    } else {
      var q := p[..|p| - 1];
      assert Path(heap, states, statics, q);
      PathWithin(heap, states, statics, q);
      assert Refers(p[|p| - 2], p[|p| - 1]);
      SuccessorsExact(p[|p| - 2], p[|p| - 1]);
    }
  }

  /** What can be reached is what a path leads to. */
  lemma ReachableExact(heap: set<Object>, states: seq<State>, statics: seq<seq<Register>>, o: Object)
    requires Closed(heap) && StatesRoots(states) + StaticsRoots(statics) <= heap && o in heap
    ensures Reachable(heap, StatesRoots(states) + StaticsRoots(statics), o)
            <==> exists p :: Path(heap, states, statics, p) && p[|p| - 1] == o
  {
    hide Path, Within, StatesRoots, StaticsRoots;
    var roots := StatesRoots(states) + StaticsRoots(statics);
    if Reachable(heap, roots, o) {
      var n: nat :| o in Within(heap, roots, n);
      WithinPath(heap, states, statics, n, o);
    }
    if p :| Path(heap, states, statics, p) && p[|p| - 1] == o {
      PathWithin(heap, states, statics, p);
    }
  }

  lemma MarkedByPaths(heap: set<Object>, states: seq<State>, statics: seq<seq<Register>>, v: nat)
    requires Closed(heap) && StatesRoots(states) + StaticsRoots(statics) <= heap
    requires Marked(heap, v) == ReachableSet(heap, StatesRoots(states) + StaticsRoots(statics))
    ensures forall o :: o in heap ==>
      (o.gcVersion == v <==> exists p :: Path(heap, states, statics, p) && p[|p| - 1] == o)
    ensures forall x :: IsRoot(states, statics, x) ==> x in heap && x.gcVersion == v
    ensures forall o, x :: o in heap && o.gcVersion == v && Refers(o, x) ==> x in heap && x.gcVersion == v
  {
    hide Reachable, Successors, StatesRoots, StaticsRoots, Path, IsRoot, Refers;
    var roots := StatesRoots(states) + StaticsRoots(statics);
    ReachableCloses(heap, roots);
    forall o | o in heap
      ensures o.gcVersion == v <==> exists p :: Path(heap, states, statics, p) && p[|p| - 1] == o
    {
      ReachableExact(heap, states, statics, o);
      assert o in Marked(heap, v) <==> o in ReachableSet(heap, roots);
    }
    forall x | IsRoot(states, statics, x)
      ensures x in heap && x.gcVersion == v
    {
      RootsExact(states, statics, x);
      assert x in Marked(heap, v);
    }
    forall o, x | o in heap && o.gcVersion == v && Refers(o, x)
      ensures x in heap && x.gcVersion == v
    {
      SuccessorsExact(o, x);
      assert o in Marked(heap, v) && x in Marked(heap, v);
    }
  }

  // ----- the collection -----

  ghost function Kept(objects: seq<Object>, alive: set<Object>): seq<Object> {
    if objects == [] then [] else (if objects[0] in alive then [objects[0]] else []) + Kept(objects[1..], alive)
  }

  lemma {:induction false} KeptWithin(objects: seq<Object>, alive: set<Object>)
    ensures forall o :: o in Kept(objects, alive) <==> o in objects && o in alive
  {
    if objects != [] {
      KeptWithin(objects[1..], alive);
    }
  }

  /** The positions of the objects alive, in order. */
  ghost function PositionsOf(objects: seq<Object>, alive: set<Object>, first: nat): seq<nat> {
    if objects == [] then []
    else (if objects[0] in alive then [first] else []) + PositionsOf(objects[1..], alive, first + 1)
  }

  lemma {:induction false} PositionsKept(objects: seq<Object>, alive: set<Object>, first: nat, k: nat)
    requires k < |PositionsOf(objects, alive, first)|
    ensures |Kept(objects, alive)| == |PositionsOf(objects, alive, first)|
    ensures var i := PositionsOf(objects, alive, first)[k];
            first <= i < first + |objects| && Kept(objects, alive)[k] == objects[i - first]
  {
    PositionsSize(objects, alive, first);
    var own := if objects[0] in alive then 1 else 0;
    if k >= own {
      PositionsKept(objects[1..], alive, first + 1, k - own);
    }
  }

  lemma {:induction false} PositionsSize(objects: seq<Object>, alive: set<Object>, first: nat)
    ensures |Kept(objects, alive)| == |PositionsOf(objects, alive, first)|
  {
    if objects != [] {
      PositionsSize(objects[1..], alive, first + 1);
    }
  }

  lemma {:induction false} PositionsSorted(objects: seq<Object>, alive: set<Object>, first: nat, j: nat, k: nat)
    requires j < k < |PositionsOf(objects, alive, first)|
    ensures PositionsOf(objects, alive, first)[j] < PositionsOf(objects, alive, first)[k]
  {
    var own := if objects[0] in alive then 1 else 0;
    if j >= own {
      PositionsSorted(objects[1..], alive, first + 1, j - own, k - own);
    } else {
      PositionsKept(objects[1..], alive, first + 1, k - 1);
    }
  }

  lemma {:induction false} PositionsAll(objects: seq<Object>, alive: set<Object>, first: nat, i: nat)
    requires i < |objects|
    ensures objects[i] in alive <==> first + i in PositionsOf(objects, alive, first)
  {
    var own, rest := if objects[0] in alive then [first] else [], PositionsOf(objects[1..], alive, first + 1);
    assert PositionsOf(objects, alive, first) == own + rest;
    assert first + i in own + rest <==> first + i in own || first + i in rest;
    if i > 0 {
      PositionsAll(objects[1..], alive, first + 1, i - 1);
    } else if k :| 0 <= k < |rest| && rest[k] == first {
      PositionsKept(objects[1..], alive, first + 1, k);
    }
  }

  /** The kept objects are those at the positions of objects alive, all of them, in order. */
  lemma KeptInOrder(objects: seq<Object>, alive: set<Object>)
    ensures var at := PositionsOf(objects, alive, 0);
            && |Kept(objects, alive)| == |at|
            && (forall k :: 0 <= k < |at| ==> at[k] < |objects| && Kept(objects, alive)[k] == objects[at[k]])
            && (forall j, k :: 0 <= j < k < |at| ==> at[j] < at[k])
            && (forall i :: 0 <= i < |objects| ==> (objects[i] in alive <==> i in at))
  {
    hide Kept, PositionsOf;
    var at := PositionsOf(objects, alive, 0);
    PositionsSize(objects, alive, 0);
    forall k | 0 <= k < |at|
      ensures at[k] < |objects| && Kept(objects, alive)[k] == objects[at[k]]
    {
      PositionsKept(objects, alive, 0, k);
    }
    forall j, k | 0 <= j < k < |at|
      ensures at[j] < at[k]
    {
      PositionsSorted(objects, alive, 0, j, k);
    }
    forall i | 0 <= i < |objects|
      ensures objects[i] in alive <==> i in at
    {
      PositionsAll(objects, alive, 0, i);
    }
  }

  class Collector {
    var gcVersion: nat
    /** Every object that was allocated and not yet freed. */
    var objects: seq<Object>
    var states: seq<State>
    /** The static variables of every known class. */
    var statics: seq<seq<Register>>

    function Roots(): set<Object>
      reads this
    {
      StatesRoots(states) + StaticsRoots(statics)
    }

    /** References stay in the heap, and no object is stamped with a version to come. */
    ghost predicate Valid(heap: set<Object>)
      reads this, heap
    {
      && Closed(heap) && Roots() <= heap
      && (forall o :: o in objects ==> o in heap)
      && (forall o :: o in heap ==> o.gcVersion <= gcVersion)
    }

    method VisitStates(ghost heap: set<Object>, ghost r: set<Object>)
      requires Visitable(heap, r, StatesRoots(states))
      modifies heap`gcVersion
      ensures MarkedFrom(heap, gcVersion, StatesRoots(states), r)
    {
      var i := 0;
      while i < |states|
        invariant 0 <= i <= |states|
        invariant Visitable(heap, r, StatesRoots(states[i..]))
        invariant MarkedFrom(heap, gcVersion, {}, r) && StatesRoots(states) <= StatesRoots(states[i..])
                  + Marked(heap, gcVersion)
      {
        assert states[i..][1..] == states[i + 1..];
        if !states[i].removed {
          VisitState(states[i], gcVersion, heap, r);
        }
        i := i + 1;
      }
    }

    method VisitStatics(ghost heap: set<Object>, ghost r: set<Object>)
      requires Visitable(heap, r, StaticsRoots(statics))
      modifies heap`gcVersion
      ensures MarkedFrom(heap, gcVersion, StaticsRoots(statics), r)
    {
      var i := 0;
      while i < |statics|
        invariant 0 <= i <= |statics|
        invariant Visitable(heap, r, StaticsRoots(statics[i..]))
        invariant MarkedFrom(heap, gcVersion, {}, r) && StaticsRoots(statics) <= StaticsRoots(statics[i..])
                  + Marked(heap, gcVersion)
      {
        assert statics[i..][1..] == statics[i + 1..];
        VisitRegisters(statics[i], gcVersion, heap, r);
        i := i + 1;
      }
    }

    /** Objects without the current version are left out of the new list. */
    method Sweep(ghost alive: set<Object>)
      requires forall o :: o in objects ==> (o.gcVersion == gcVersion <==> o in alive)
      modifies this`objects
      ensures objects == Kept(old(objects), alive)
    {
      var newList := [];
      var i := 0;
      while i < |objects|
        invariant 0 <= i <= |objects| && objects == old(objects)
        invariant newList + Kept(objects[i..], alive) == Kept(objects, alive)
      {
        assert objects[i..][1..] == objects[i + 1..];
        if objects[i].gcVersion == gcVersion {
          newList := newList + [objects[i]];
        }
        i := i + 1;
      }
      objects := newList;
    }

    /** The mark phase: with no object marked yet, exactly the reachable ones are marked. */
    method Mark(ghost heap: set<Object>)
      requires Valid(heap) && Marked(heap, gcVersion) == {}
      modifies heap`gcVersion
      ensures Valid(heap) && ReachableSet(heap, Roots()) == old(ReachableSet(heap, Roots()))
      ensures Marked(heap, gcVersion) == ReachableSet(heap, Roots())
      ensures forall o :: o in heap && o.gcVersion != gcVersion ==> o.gcVersion == old(o.gcVersion)
    {
      hide Reachable, ReachableSet, Successors, StatesRoots, StaticsRoots;
      ghost var alive := ReachableSet(heap, Roots());
      ReachableCloses(heap, Roots());
      VisitStates(heap, alive);
      VisitStatics(heap, alive);
      MarkedIsReachable(heap, gcVersion, Roots());
    }

    /** After a collection an object has the new version if and only if a path of references leads
        to it from a root, and the list holds exactly those objects, in the order they had. */
    method Gc(ghost heap: set<Object>)
      requires Valid(heap)
      modifies this`gcVersion, this`objects, heap`gcVersion
      ensures Valid(heap) && gcVersion == old(gcVersion) + 1
      ensures forall o :: o in heap ==>
        (o.gcVersion == gcVersion <==> exists p :: Path(heap, states, statics, p) && p[|p| - 1] == o)
      ensures forall x :: IsRoot(states, statics, x) ==> x in heap && x.gcVersion == gcVersion
      ensures forall o, x :: o in heap && o.gcVersion == gcVersion && Refers(o, x) ==>
        x in heap && x.gcVersion == gcVersion
      ensures Marked(heap, gcVersion) == ReachableSet(heap, Roots())
      ensures forall o :: o in heap && o.gcVersion != gcVersion ==> o.gcVersion == old(o.gcVersion)
      ensures objects == Kept(old(objects), Marked(heap, gcVersion))
    {
      hide Reachable, ReachableSet, Successors, StatesRoots, StaticsRoots, Kept, Path, IsRoot, Refers;
      gcVersion := gcVersion + 1;
      assert Marked(heap, gcVersion) == {};
      Mark(heap);
      Sweep(ReachableSet(heap, Roots()));
      KeptWithin(old(objects), ReachableSet(heap, Roots()));
      MarkedByPaths(heap, states, statics, gcVersion);
    }
  }
}
