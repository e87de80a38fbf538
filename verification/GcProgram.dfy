/**
 The program and the collector together: whatever the program does between the steps of
 the collector, nothing it can reach is ever freed.
 */
module GcProgram {
  import opened GcHeap
  import opened GcPropagate
  import opened GcState
  import opened GcCollect
  import opened GcStep
  import opened GcBarrier
  import opened GcAlloc
  import opened GcUpval
  import opened GcCloseFrom
  import opened GcFull
  import opened GcKept

  // What the program may do between two steps of the collector, and the collector's step.
  // `r` is always an unused address and `dst` a slot of the running thread's stack.
  datatype Step =
    | Collect
    | FullCollect
    | Alloc(r: Ref, obj: Obj, dst: nat)
    | Intern(text: string, r: Ref, dst: nat)
    | Capture(level: nat, r: Ref, dst: nat)
    | Close(level: nat)
    | StackWrite(t: Ref, i: nat, v: Value)
    | StackPush(t: Ref, v: Value)
    | Store(o: Ref, i: nat, v: Value)
    | SetMetatable(o: Ref, v: Value)
    | SetEntry(o: Ref, i: nat, k: Value, v: Value)
    | AddEntry(o: Ref, k: Value, v: Value)
    | SetMode(o: Ref, wk: bool, wv: bool)
    | SetUpval(o: Ref, v: Value)
    | SetBasicMetatable(i: nat, v: Value)
    | Resume(t: Ref)
    | Resize(n: nat)
    | FixString(r: Ref)

  ghost predicate Holds(s: State, r: Ref) {
    Reachable(s.h, Roots(s), r)
  }

  ghost predicate HoldsVal(s: State, v: Value) {
    v.Ptr? ==> Holds(s, v.ref)
  }

  ghost predicate Unused(s: State, r: Ref) {
    r !in s.h && r !in s.fixed
  }

  predicate UpvalCell(s: State, o: Ref) {
    o in s.h && s.h[o].kind.Upval? && (s.h[o].kind.loc.Closed? ==> |s.h[o].slots| > 0)
  }

  predicate StackSlot(s: State, i: nat) {
    s.running in s.h && i < |s.h[s.running].slots|
  }

  // The program gets at objects only through what it can reach.
  ghost predicate Enabled(s: State, st: Step) {
    match st
    case Collect => true
    case FullCollect => true
    case Alloc(r, o, dst) =>
      Unused(s, r) && Linkable(o) && StackSlot(s, dst) &&
      forall v :: v in Own(o) ==> HoldsVal(s, v)
    case Intern(text, r, dst) => Unused(s, r) && StackSlot(s, dst)
    case Capture(level, r, dst) => Unused(s, r) && StackSlot(s, level) && StackSlot(s, dst)
    case Close(level) => true
    case StackWrite(t, i, v) => Holds(s, t) && IsThread(s, t) && i < |s.h[t].slots| && HoldsVal(s, v)
    case StackPush(t, v) => Holds(s, t) && IsThread(s, t) && HoldsVal(s, v)
    case Store(o, i, v) =>
      Holds(s, o) && o in s.h && MayBeBlack(s.h[o]) && !s.h[o].kind.Table? && i < |s.h[o].slots| && HoldsVal(s, v)
    case SetMetatable(o, v) =>
      Holds(s, o) && o in s.h && s.h[o].kind.Table? && |s.h[o].slots| > 0 && HoldsVal(s, v)
    case SetEntry(o, i, k, v) =>
      Holds(s, o) && o in s.h && s.h[o].kind.Table? && i < |s.h[o].keys| && HoldsVal(s, k) && HoldsVal(s, v)
    case AddEntry(o, k, v) => Holds(s, o) && o in s.h && s.h[o].kind.Table? && HoldsVal(s, k) && HoldsVal(s, v)
    case SetMode(o, _, _) => Holds(s, o) && o in s.h && s.h[o].kind.Table?
    case SetUpval(o, v) => Holds(s, o) && UpvalCell(s, o) && HoldsVal(s, v)
    case SetBasicMetatable(i, v) => i < |s.mt| && HoldsVal(s, v)
    case Resume(t) => Holds(s, t) && IsThread(s, t)
    case Resize(n) => n > 0
    case FixString(r) => Holds(s, r) && r in s.h && s.h[r].kind.Str?
  }

  function PutObj(s: State, o: Ref, obj: Obj): State {
    s.(h := s.h[o := obj])
  }

  function PutSlot(s: State, o: Ref, i: nat, v: Value): State
    requires o in s.h && i < |s.h[o].slots|
  {
    PutObj(s, o, s.h[o].(slots := s.h[o].slots[i := v]))
  }

  lemma HeldLive(s: State, v: Value)
    requires Inv(s) && HoldsVal(s, v)
    ensures AllLive(s, [v]) && (v.Ptr? ==> v.ref in s.h)
  {
    if v.Ptr? { ReachableIsLive(s, v.ref); }
  }

  lemma RunningLive(s: State)
    requires Inv(s)
    ensures Live(s, s.running) && IsThread(s, s.running) && ThreadOk(s.h, s.running)
  {
    assert Ptr(s.running) in Roots(s);
    InvThreadOk(s, s.running);
  }

  // ----- writes to the stack -----

  lemma StackWriteKeeps(s: State, t: Ref, i: nat, v: Value)
    requires Inv(s) && IsThread(s, t) && i < |s.h[t].slots| && AllLive(s, [v])
    ensures Inv(PutSlot(s, t, i, v))
  {
    assert Shaped(s.h[t]);
    hide Core, Colors;
    PlainWriteKeeps(s, PutSlot(s, t, i, v), t, [v]);
  }

  lemma StackPushKeeps(s: State, t: Ref, v: Value)
    requires Inv(s) && IsThread(s, t) && AllLive(s, [v])
    ensures Inv(PutObj(s, t, s.h[t].(slots := s.h[t].slots + [v])))
  {
    assert Shaped(s.h[t]);
    hide Core, Colors;
    PlainWriteKeeps(s, PutObj(s, t, s.h[t].(slots := s.h[t].slots + [v])), t, [v]);
  }

  // ----- writes with a barrier -----

  lemma WrittenSlot(s: State, o: Ref, i: nat, v: Value)
    requires Inv(s) && o in s.h && MayBeBlack(s.h[o]) && i < |s.h[o].slots| && AllLive(s, [v])
    ensures Written(s, PutSlot(s, o, i, v), o, [v]) && Written(s, PutSlot(s, o, i, v), o, [NIL, v])
  {
    assert Shaped(s.h[o]);
    hide Core, Colors;
  }

  lemma WrittenEntry(s: State, o: Ref, obj: Obj, k: Value, v: Value)
    requires Inv(s) && o in s.h && s.h[o].kind.Table? && AllLive(s, [k]) && AllLive(s, [v])
    requires |obj.keys| == |obj.vals| && obj == s.h[o].(keys := obj.keys, vals := obj.vals)
    requires forall i ::
      0 <= i < |obj.keys| ==> obj.keys[i] == k || (i < |s.h[o].keys| && obj.keys[i] == s.h[o].keys[i])
    requires forall i ::
      0 <= i < |obj.vals| ==> obj.vals[i] == v || (i < |s.h[o].vals| && obj.vals[i] == s.h[o].vals[i])
    ensures Written(s, PutObj(s, o, obj), o, [k, v])
  {
    hide Core, Colors;
  }

  lemma StoreKeeps(s: State, o: Ref, i: nat, v: Value)
    requires Inv(s) && o in s.h && MayBeBlack(s.h[o]) && i < |s.h[o].slots| && AllLive(s, [v])
    ensures var s1 := PutSlot(s, o, i, v);
      && Core(s1) && o in s1.h && (v.Ptr? ==> v.ref in s1.h) && (s1.phase.Propagate? ==> NoneDead(s1))
      && Inv(BarrierForward(s1, o, v))
  {
    hide Inv, Written;
    WrittenSlot(s, o, i, v);
    StoreForwardKeeps(s, PutSlot(s, o, i, v), o, v);
  }

  lemma MetatableKeeps(s: State, o: Ref, v: Value)
    requires Inv(s) && o in s.h && s.h[o].kind.Table? && |s.h[o].slots| > 0 && AllLive(s, [v])
    ensures var s1 := PutSlot(s, o, 0, v);
      o in s1.m.color && (v.Ptr? ==> v.ref in s1.m.color) && Inv(TableBarriers(s1, o, NIL, v))
  {
    hide Inv, Written;
    WrittenSlot(s, o, 0, v);
    StoreBackKeeps(s, PutSlot(s, o, 0, v), o, NIL, v);
  }

  lemma EntryKeeps(s: State, o: Ref, obj: Obj, k: Value, v: Value)
    requires Inv(s) && o in s.h && s.h[o].kind.Table? && AllLive(s, [k]) && AllLive(s, [v])
    requires |obj.keys| == |obj.vals| && obj == s.h[o].(keys := obj.keys, vals := obj.vals)
    requires forall i ::
      0 <= i < |obj.keys| ==> obj.keys[i] == k || (i < |s.h[o].keys| && obj.keys[i] == s.h[o].keys[i])
    requires forall i ::
      0 <= i < |obj.vals| ==> obj.vals[i] == v || (i < |s.h[o].vals| && obj.vals[i] == s.h[o].vals[i])
    ensures var s1 := PutObj(s, o, obj);
      o in s1.m.color && (k.Ptr? ==> k.ref in s1.m.color) && (v.Ptr? ==> v.ref in s1.m.color) &&
      Inv(TableBarriers(s1, o, k, v))
  {
    hide Inv, Written;
    WrittenEntry(s, o, obj, k, v);
    StoreBackKeeps(s, PutObj(s, o, obj), o, k, v);
  }

  lemma ModeKeeps(s: State, o: Ref, wk: bool, wv: bool)
    requires Inv(s) && o in s.h && s.h[o].kind.Table?
    ensures Inv(PutObj(s, o, s.h[o].(kind := Table(wk, wv))))
  {
    assert Shaped(s.h[o]);
    hide Core, Colors;
    PlainWriteKeeps(s, PutObj(s, o, s.h[o].(kind := Table(wk, wv))), o, []);
  }

  // OP_SETUPVAL: an open upvalue is written through to the stack, and needs no barrier.
  function WriteUpval(s: State, o: Ref, v: Value): State
    requires Inv(s) && UpvalCell(s, o) && AllLive(s, [v])
  {
    match s.h[o].kind.loc
    case Open(t, i) =>
      assert Attached(s.h, o);
      PutSlot(s, t, i, v)
    case Closed =>
      StoreKeeps(s, o, 0, v);
      BarrierForward(PutSlot(s, o, 0, v), o, v)
  }

  lemma WriteUpvalKeeps(s: State, o: Ref, v: Value)
    requires Inv(s) && UpvalCell(s, o) && AllLive(s, [v])
    ensures Inv(WriteUpval(s, o, v))
  {
    if s.h[o].kind.loc.Open? {
      assert Attached(s.h, o);
      StackWriteKeeps(s, s.h[o].kind.loc.thread, s.h[o].kind.loc.slot, v);
    } else {
      StoreKeeps(s, o, 0, v);
    }
  }

  // ----- allocation -----

  // The position just behind `x` in a list that has it
  function Behind(q: seq<Ref>, x: Ref): (i: nat)
    ensures i <= |q|
  {
    if q == [] then 0 else if q[0] == x then 1 else 1 + Behind(q[1..], x)
  }

  function NewObject(s: State, r: Ref, o: Obj): State {
    Link(s, r, o, if o.kind.Udata? then Behind(s.rootgc, s.main) else 0)
  }

  lemma NewObjectKeeps(s: State, r: Ref, o: Obj)
    requires Inv(s) && Unused(s, r) && Linkable(o) && forall v :: v in Own(o) ==> HoldsVal(s, v)
    ensures Inv(NewObject(s, r, o)) && Live(NewObject(s, r, o), r)
  {
    forall v | v in Own(o) && v.Ptr? ensures Live(s, v.ref) { HeldLive(s, v); }
    InHeapColored(s);
    hide Inv, Linkable, Behind, HoldsVal;
    LinkKeeps(s, r, o, if o.kind.Udata? then Behind(s.rootgc, s.main) else 0);
  }

  // A new or found object goes to the stack at once, before the collector can run.
  function Push(s: State, dst: nat, r: Ref): State
    requires StackSlot(s, dst)
  {
    PutSlot(s, s.running, dst, Ptr(r))
  }

  lemma PushKeeps(s: State, dst: nat, r: Ref)
    requires Inv(s) && StackSlot(s, dst) && Live(s, r)
    ensures Inv(Push(s, dst, r))
  {
    RunningLive(s);
    hide Inv;
    StackWriteKeeps(s, s.running, dst, Ptr(r));
  }

  // ----- roots and the rest -----

  lemma RootsChange(s: State, s': State)
    requires Inv(s) && s' == s.(running := s'.running, mt := s'.mt, fixed := s'.fixed)
    requires IsThread(s', s'.running) && AllLive(s, Roots(s'))
    requires s.fixed <= s'.fixed && forall r :: r in s'.fixed && r !in s.fixed ==> r in s.h && s.h[r].kind.Str?
    ensures Inv(s')
  {
    hide Captures, Interned, Chained, Refs, Tricolor;
    forall x | Live(s', x) ensures AllLive(s', Refs(s'.h, x)) { assert AllLive(s, Refs(s.h, x)); }
    match s.phase {
      case SweepString =>
        forall b | 0 <= b < s'.sweepstrgc ensures WhiteBucket(s', b) { assert WhiteBucket(s, b); }
      case Sweep =>
        forall i | 0 <= i < s'.sweepgc ensures Swept(s', s'.rootgc[i]) { assert Swept(s, s.rootgc[i]); }
      case _ =>
    }
  }

  lemma RootsUpdated(s: State, i: nat, v: Value)
    requires Inv(s) && i < |s.mt| && HoldsVal(s, v)
    ensures AllLive(s, Roots(s.(mt := s.mt[i := v])))
  {
    HeldLive(s, v);
    var s' := s.(mt := s.mt[i := v]);
    assert AllLive(s, Roots(s));
    assert v in [v];
    hide Core, Colors;
    forall w | w in Roots(s') && w.Ptr? ensures Live(s, w.ref) {
      assert w in Roots(s) || w == v;
    }
  }

  lemma ResumeRoots(s: State, t: Ref)
    requires Inv(s) && Holds(s, t)
    ensures AllLive(s, Roots(s.(running := t)))
  {
    ReachableIsLive(s, t);
    assert AllLive(s, Roots(s));
    hide Core, Colors;
    forall w | w in Roots(s.(running := t)) && w.Ptr? ensures Live(s, w.ref) {
      assert w in Roots(s) || w == Ptr(t);
    }
  }

  // ----- one step -----

  function DoIntern(s: State, text: string, r: Ref, dst: nat): State
    requires Inv(s) && Enabled(s, Intern(text, r, dst))
  {
    assert |s.strt| > 0;
    InternSlot(s, text, r, dst);
    var (s1, o) := NewString(s, text, r);
    Push(s1, dst, o)
  }

  function DoCapture(s: State, level: nat, r: Ref, dst: nat): State
    requires Inv(s) && Enabled(s, Capture(level, r, dst))
  {
    hide Inv, FindUpval, Live, ThreadOk, StackSlot, Holds;
    CaptureReady(s, level, r, dst);
    var (s1, o) := FindUpval(s, s.running, level, r);
    Push(s1, dst, o)
  }

  function DoStore(s: State, o: Ref, i: nat, v: Value): State
    requires Inv(s) && Enabled(s, Store(o, i, v))
  {
    HeldLive(s, v);
    StoreKeeps(s, o, i, v);
    BarrierForward(PutSlot(s, o, i, v), o, v)
  }

  function DoSetMetatable(s: State, o: Ref, v: Value): State
    requires Inv(s) && Enabled(s, SetMetatable(o, v))
  {
    HeldLive(s, v);
    MetatableKeeps(s, o, v);
    TableBarriers(PutSlot(s, o, 0, v), o, NIL, v)
  }

  function DoPutEntries(s: State, o: Ref, ks: seq<Value>, vs: seq<Value>, k: Value, v: Value): State
    requires Inv(s) && o in s.h && s.h[o].kind.Table? && HoldsVal(s, k) && HoldsVal(s, v)
  {
    HeldLive(s, k);
    HeldLive(s, v);
    InHeapColored(s);
    TableBarriers(PutObj(s, o, s.h[o].(keys := ks, vals := vs)), o, k, v)
  }

  lemma EntriesPaired(s: State)
    requires Inv(s)
    ensures forall o :: o in s.h ==> |s.h[o].keys| == |s.h[o].vals|
  {
    hide Safe, Captures, Interned, Chained, Colors;
    forall o | o in s.h ensures |s.h[o].keys| == |s.h[o].vals| { assert Shaped(s.h[o]); }
  }

  // The state after one step of the program or the collector
  function Apply(s: State, st: Step): State
    requires Inv(s) && Enabled(s, st)
  {
    hide Core, Colors, Reachable;
    RunningLive(s);
    EntriesPaired(s);
    match st
    case Collect => SingleStep(s)
    case FullCollect => FullGc(s)
    case Alloc(r, o, dst) => AllocSlot(s, r, o, dst); Push(NewObject(s, r, o), dst, r)
    case Intern(text, r, dst) => DoIntern(s, text, r, dst)
    case Capture(level, r, dst) => DoCapture(s, level, r, dst)
    case Close(level) => CloseFrom(s, s.running, level)
    case StackWrite(t, i, v) => PutSlot(s, t, i, v)
    case StackPush(t, v) => PutObj(s, t, s.h[t].(slots := s.h[t].slots + [v]))
    case Store(o, i, v) => DoStore(s, o, i, v)
    case SetMetatable(o, v) => DoSetMetatable(s, o, v)
    case SetEntry(o, i, k, v) => DoPutEntries(s, o, s.h[o].keys[i := k], s.h[o].vals[i := v], k, v)
    case AddEntry(o, k, v) => DoPutEntries(s, o, s.h[o].keys + [k], s.h[o].vals + [v], k, v)
    case SetMode(o, wk, wv) => PutObj(s, o, s.h[o].(kind := Table(wk, wv)))
    case SetUpval(o, v) => HeldLive(s, v); WriteUpval(s, o, v)
    case SetBasicMetatable(i, v) => s.(mt := s.mt[i := v])
    case Resume(t) => s.(running := t)
    case Resize(n) => ResizeStrings(s, n)
    case FixString(r) => s.(fixed := s.fixed + {r})
  }

  lemma CaptureReady(s: State, level: nat, r: Ref, dst: nat)
    requires Inv(s) && Enabled(s, Capture(level, r, dst))
    ensures ThreadOk(s.h, s.running)
    ensures var (s1, o) := FindUpval(s, s.running, level, r); Inv(s1) && Live(s1, o) && StackSlot(s1, dst)
  {
    hide Inv, FindUpval, Live, ThreadOk;
    RunningLive(s);
    CaptureFacts(s, level, r, dst);
    FindUpvalShared(s, s.running, level, r);
    FindUpvalStack(s, level, r, dst);
  }

  lemma CaptureFacts(s: State, level: nat, r: Ref, dst: nat)
    requires Enabled(s, Capture(level, r, dst))
    ensures Unused(s, r) && StackSlot(s, level) && StackSlot(s, dst)
  {
    hide Unused;
  }

  lemma FindUpvalStack(s: State, level: nat, r: Ref, dst: nat)
    requires ThreadOk(s.h, s.running) && r !in s.h && StackSlot(s, dst)
    ensures StackSlot(FindUpval(s, s.running, level, r).0, dst)
  {
  }

  // Every step keeps the invariant.
  lemma StepKeeps(s: State, st: Step)
    requires Inv(s) && Enabled(s, st)
    ensures Inv(Apply(s, st))
  {
    hide Core, Colors, Inv, SingleStep, FullGc, NewObject, NewString, FindUpval, CloseFrom, Linkable, Holds,
      BarrierForward, TableBarriers, WriteUpval, ResizeStrings, DoPutEntries, DoCapture, DoIntern;
    RunningLive(s);
    match st {
      case Collect => SingleStepKeeps(s);
      case FullCollect => FullGcKeeps(s);
      case Alloc(r, o, dst) => NewObjectKeeps(s, r, o); AllocSlot(s, r, o, dst); PushKeeps(NewObject(s, r, o), dst, r);
      case Intern(text, r, dst) => DoInternKeeps(s, text, r, dst);
      case Capture(level, r, dst) => DoCaptureKeeps(s, level, r, dst);
      case Close(level) => CloseFromKeeps(s, s.running, level);
      case StackWrite(t, i, v) => HeldLive(s, v); StackWriteKeeps(s, t, i, v);
      case StackPush(t, v) => HeldLive(s, v); StackPushKeeps(s, t, v);
      case Store(o, i, v) => HeldLive(s, v); StoreKeeps(s, o, i, v);
      case SetMetatable(o, v) => HeldLive(s, v); MetatableKeeps(s, o, v);
      case SetEntry(o, i, k, v) => SetEntryKeeps(s, o, i, k, v);
      case AddEntry(o, k, v) => AddEntryKeeps(s, o, k, v);
      case SetMode(o, wk, wv) => ModeKeeps(s, o, wk, wv);
      case SetUpval(o, v) => HeldLive(s, v); WriteUpvalKeeps(s, o, v);
      case SetBasicMetatable(i, v) => RootsUpdated(s, i, v); RootsChange(s, Apply(s, st));
      case Resume(t) => ResumeRoots(s, t); RootsChange(s, Apply(s, st));
      case Resize(n) => ResizeKeeps(s, n);
      case FixString(r) => FixKeeps(s, r);
    }
  }

  lemma DoInternKeeps(s: State, text: string, r: Ref, dst: nat)
    requires Inv(s) && Enabled(s, Intern(text, r, dst))
    ensures Inv(DoIntern(s, text, r, dst))
  {
    RunningLive(s);
    NewStringCanonical(s, text, r);
    assert |s.strt| > 0;
    InternSlot(s, text, r, dst);
    hide Inv, NewString;
    var (s1, o) := NewString(s, text, r);
    PushKeeps(s1, dst, o);
  }

  lemma DoCaptureKeeps(s: State, level: nat, r: Ref, dst: nat)
    requires Inv(s) && Enabled(s, Capture(level, r, dst))
    ensures Inv(DoCapture(s, level, r, dst))
  {
    hide Inv, FindUpval;
    CaptureReady(s, level, r, dst);
    var (s1, o) := FindUpval(s, s.running, level, r);
    PushKeeps(s1, dst, o);
  }

  lemma AllocSlot(s: State, r: Ref, o: Obj, dst: nat)
    requires r !in s.h && s.running in s.h && StackSlot(s, dst)
    ensures StackSlot(NewObject(s, r, o), dst)
  {
    hide Behind;
  }

  lemma InternSlot(s: State, text: string, r: Ref, dst: nat)
    requires |s.strt| > 0 && r !in s.h && StackSlot(s, dst)
    ensures StackSlot(NewString(s, text, r).0, dst)
  {
    hide FindString, Bucket;
  }

  lemma SetEntryKeeps(s: State, o: Ref, i: nat, k: Value, v: Value)
    requires Inv(s) && o in s.h && s.h[o].kind.Table? && i < |s.h[o].keys| && HoldsVal(s, k) && HoldsVal(s, v)
    ensures i < |s.h[o].vals| && Inv(DoPutEntries(s, o, s.h[o].keys[i := k], s.h[o].vals[i := v], k, v))
  {
    hide Inv, TableBarriers, Holds;
    EntriesPaired(s);
    HeldLive(s, k);
    HeldLive(s, v);
    EntryKeeps(s, o, s.h[o].(keys := s.h[o].keys[i := k], vals := s.h[o].vals[i := v]), k, v);
  }

  lemma AddEntryKeeps(s: State, o: Ref, k: Value, v: Value)
    requires Inv(s) && o in s.h && s.h[o].kind.Table? && HoldsVal(s, k) && HoldsVal(s, v)
    ensures Inv(DoPutEntries(s, o, s.h[o].keys + [k], s.h[o].vals + [v], k, v))
  {
    hide Inv, TableBarriers, Holds;
    EntriesPaired(s);
    HeldLive(s, k);
    HeldLive(s, v);
    EntryKeeps(s, o, s.h[o].(keys := s.h[o].keys + [k], vals := s.h[o].vals + [v]), k, v);
  }

  lemma FixKeeps(s: State, r: Ref)
    requires Inv(s) && r in s.h && s.h[r].kind.Str?
    ensures Inv(s.(fixed := s.fixed + {r}))
  {
    RunningLive(s);
    var s' := s.(fixed := s.fixed + {r});
    assert Roots(s') == Roots(s) && AllLive(s, Roots(s));
    RootsChange(s, s');
  }

  // ----- whole runs -----

  // Each step of the run is one the program may take when its turn comes.
  ghost predicate CanRun(s: State, run: seq<Step>)
    requires Inv(s)
    decreases |run|
  {
    hide Inv, Enabled, Apply;
    run == [] || (Enabled(s, run[0]) && (StepKeeps(s, run[0]); CanRun(Apply(s, run[0]), run[1..])))
  }

  function Final(s: State, run: seq<Step>): State
    requires Inv(s) && CanRun(s, run)
    decreases |run|
  {
    hide Inv, Enabled, Apply;
    if run == [] then s
    else
      StepKeeps(s, run[0]);
      Final(Apply(s, run[0]), run[1..])
  }

  // A state as `lua_newstate` leaves it: the main thread, its globals and the registry.
  ghost predicate Initial(s: State) {
    && s.h.Keys == {0, 1, 2} && s.main == 0 && s.running == 0
    && s.h[0].kind == Thread([]) && |s.h[0].slots| > 0 && s.h[0].slots[0] == Ptr(1)
    && (forall i :: 0 < i < |s.h[0].slots| ==> s.h[0].slots[i] == NIL)
    && s.h[0].keys == [] && s.h[0].vals == []
    && s.h[1] == s.h[2] == Obj(Table(false, false), [NIL], [], [])
    && s.registry == Ptr(2) && (forall v :: v in s.mt ==> v == NIL)
    && s.fixed == {0} && s.white == White0 && s.phase == Pause
    && s.m.color == map[0 := White0, 1 := White0, 2 := White0]
    && s.rootgc == [2, 1, 0] && s.uvhead == [] && |s.strt| > 0 && (forall b :: 0 <= b < |s.strt| ==> s.strt[b] == [])
  }

  lemma InitialInv(s: State)
    requires Initial(s)
    ensures Inv(s)
  {
    hide Hash, Bucket;
    assert forall r :: r in s.h ==> r == 0 || r == 1 || r == 2;
    InitialSafe(s);
    hide Safe;
  }

  lemma InitialSafe(s: State)
    requires Initial(s)
    ensures Safe(s)
  {
    hide Hash, Bucket;
    assert forall v :: v in Roots(s) ==> v == Ptr(0) || v == Ptr(2) || v == NIL;
    assert forall r :: r in s.h ==> r == 0 || r == 1 || r == 2;
    forall v | v in Refs(s.h, 0) ensures v == Ptr(1) || v == NIL {
      assert Refs(s.h, 0) == s.h[0].slots;
    }
    assert Refs(s.h, 1) == [NIL] && Refs(s.h, 2) == [NIL];
  }

  // Safety: in every run, at every moment, everything the program can reach is allocated,
  // and the step taken next frees nothing the program can reach.
  lemma {:induction false} NoRunFreesWhatIsReachable(s: State, run: seq<Step>)
    requires Inv(s) && CanRun(s, run)
    ensures Inv(Final(s, run))
    ensures forall r :: Holds(Final(s, run), r) ==> Live(Final(s, run), r)
    decreases |run|
  {
    if run == [] {
      forall r | Holds(s, r) ensures Live(s, r) { ReachableIsLive(s, r); }
    } else {
      StepKeeps(s, run[0]);
      hide Inv, Apply, Holds;
      NoRunFreesWhatIsReachable(Apply(s, run[0]), run[1..]);
    }
  }

  // The same from the beginning, with what the collector may do next spelt out: neither a step
  // nor a full collection takes anything that the program strongly holds, or changes it, and
  // an entry goes only from a weak table, and with an object that is not held. A full
  // collection leaves nothing else either, save strings.
  lemma RunsFromTheStart(s: State, run: seq<Step>)
    requires Initial(s) && (InitialInv(s); CanRun(s, run))
    ensures Inv(s)
    ensures var f := Final(s, run);
      && Inv(f) && (forall r :: Holds(f, r) ==> r in f.h && r in SingleStep(f).h)
      && Preserves(f, SingleStep(f).h) && Preserves(f, FullGc(f).h)
      && (forall r :: r in FullGc(f).h && !FullGc(f).h[r].kind.Str? ==> StronglyReachable(f.h, Roots(f), r))
  {
    InitialInv(s);
    NoRunFreesWhatIsReachable(s, run);
    var f := Final(s, run);
    hide Inv, Final, CanRun, Initial, SingleStep, FullGc, Preserves, Holds, StronglyReachable, WeakString;
    SingleStepPreserves(f);
    FullGcPreserves(f);
    forall r | r in FullGc(f).h && !FullGc(f).h[r].kind.Str? ensures StronglyReachable(f.h, Roots(f), r) {
      FullGcExact(f, r);
    }
    forall r | Holds(f, r) ensures r in f.h && r in SingleStep(f).h {
      if r !in SingleStep(f).h { FreedNotHeld(f, r); }
    }
  }

  lemma FreedNotHeld(s: State, r: Ref)
    requires Inv(s) && r in s.h && r !in SingleStep(s).h
    ensures !Holds(s, r)
  {
    hide Inv, SingleStep;
    CollectorFreesOnlyGarbage(s, r);
  }
}
