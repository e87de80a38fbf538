/**
 The state of a function being compiled, updated in place as the code generator does: the
 patch lists run through the code itself. `view` is the same state with the lists apart.
 */
module LuaFuncState {
  import opened LuaVm
  import opened LuaRun
  import G = LuaCodegen
  import opened LuaFrame
  import opened LuaCompose
  import opened LuaExit
  import opened LuaLists
  import opened LuaThreads
  import opened LuaLinks
  import opened LuaOperators
  import LuaTheorem
  import LuaCompile
  import LuaClean
  import LuaBranches
  import LuaCompare
  import LuaNot
  import LuaRegisters

  class FuncState {
    var code: seq<Instr>
    var k: seq<Value>
    var jpc: int
    var freereg: int
    const nactvar: nat
    ghost var view: G.Fs

    ghost predicate Valid()
      reads this
    {
      && Same(code, view.code) && Threads(code, jpc, view.jpc)
      && k == view.k && freereg == view.freereg && nactvar == view.nactvar
    }

    constructor (nactvar: nat)
      ensures Valid() && view == G.Fs([], [], [], nactvar, nactvar) && Tidy(view, Bare(G.VTrue))
    {
      code, k, jpc, freereg := [], [], NO_JUMP, nactvar;
      this.nactvar := nactvar;
      view := G.Fs([], [], [], nactvar, nactvar);
    }

    // `fixjump`
    method FixJump(pc: int, dest: int)
      requires 0 <= pc < |code|
      modifies `code
      ensures code == old(code)[pc := JMP(dest - (pc + 1))]
    {
      code := code[pc := JMP(dest - (pc + 1))];
    }

    // `luaK_concat`
    method Concat(l1: int, l2: int, ghost a: seq<int>, ghost b: seq<int>) returns (l: int)
      requires Threads(code, l1, a) && Threads(code, l2, b) && Once(a) && Apart(a, b)
      modifies `code
      ensures Threads(code, l, a + b) && |code| == |old(code)|
      ensures forall i :: 0 <= i < |code| && i !in a ==> code[i] == old(code)[i]
      ensures forall i :: i in a && 0 <= i < |code| ==> code[i].JMP? && old(code)[i].JMP?
    {
      if l2 == NO_JUMP {
        AllJumpsOf(code, l1, a);
        assert a + b == a by { NoHead(code, l2, b); }
        return l1;
      }
      if l1 == NO_JUMP {
        assert a + b == b by { NoHead(code, l1, a); }
        return l2;
      }
      AllJumpsOf(code, l1, a);
      var list := l1;
      ghost var i := 0;
      while Link(code, list) != NO_JUMP
        invariant 0 <= i < |a| && list == a[i] && 0 <= list < |code| && code[list].JMP? && Threads(code, list, a[i..])
        decreases |a| - i
      {
        assert a[i..][1..] == a[i + 1..];
        list := Link(code, list);
        i := i + 1;
      }
      assert a[i..][1..] == a[i + 1..] && a[i + 1..] == [] by { NoHead(code, NO_JUMP, a[i..][1..]); }
      ghost var before := code;
      assert l2 in b && list in a;
      FixJump(list, l2);
      ThreadsFramed(before, code, l2, b);
      ThreadsJoined(before, code, l1, a, l2, b);
      l := l1;
    }

    // `need_value`
    method NeedValue(list: int, ghost js: seq<int>) returns (need: bool)
      requires Threads(code, list, js)
      ensures need == G.NeedValue(code, js)
    {
      var l := list;
      ghost var i := 0;
      while l != NO_JUMP
        invariant 0 <= i <= |js| && Threads(code, l, js[i..])
        invariant forall x :: 0 <= x < i ==> ValueJump(code, js[x])
        decreases |js| - i
      {
        assert js[i..] != [] && js[i..][0] == js[i] && js[i..][1..] == js[i + 1..];
        if !ValueJump(code, l) {
          assert js[i] in js;
          return true;
        }
        l := Link(code, l);
        i := i + 1;
      }
      assert i == |js| by { NoHead(code, l, js[i..]); }
      need := false;
    }

    // One round of `patchlistaux`: `patchtestreg` and `fixjump`
    method PatchOne(l: int, vtarget: int, reg: int, dtarget: int)
      requires 0 <= l < |code|
      modifies `code
      ensures code == PatchedOne(old(code), l, vtarget, reg, dtarget)
    {
      if l > 0 && code[l - 1].TESTSET? {
        code := code[l - 1 := G.PatchTest(code[l - 1], reg)];
        FixJump(l, vtarget);
      } else {
        FixJump(l, dtarget);
      }
    }

    // `patchlistaux`
    method PatchListAux(list: int, vtarget: int, reg: int, dtarget: int, ghost js: seq<int>)
      requires Threads(code, list, js) && Once(js) && Same(code, view.code) && AllOpen(view.code, js)
      modifies `code
      ensures Same(code, G.Patched(view.code, js, vtarget, reg, dtarget))
      ensures forall i :: 0 <= i < |code| && i !in js && old(code)[i].JMP? ==> code[i] == old(code)[i]
    {
      ghost var c0, open := code, view.code;
      var l := list;
      ghost var p := 0;
      while l != NO_JUMP
        invariant 0 <= p <= |js| && Threads(code, l, js[p..])
        invariant PatchedTo(code, c0, open, js, p, vtarget, reg, dtarget)
        decreases |js| - p
      {
        assert js[p..] != [] && js[p..][0] == js[p] && js[p..][1..] == js[p + 1..];
        var next := Link(code, l);
        PatchRound(code, c0, open, js, p, vtarget, reg, dtarget);
        PatchOne(l, vtarget, reg, dtarget);
        l := next;
        p := p + 1;
      }
      NoHead(code, l, js[p..]);
      assert js[..p] == js;
    }

    // ----- emitting code -----

    // `dischargejpc` and `luaK_code`
    method Code(i: Instr)
      requires Valid() && Once(view.jpc) && AllOpen(view.code, view.jpc) && !i.JMP?
      modifies this
      ensures Valid() && view == G.Emit(old(view), i) && LinksHere(old(code), old(view), code)
    {
      var n := |code|;
      PatchListAux(jpc, n, NO_REG, n, view.jpc);
      jpc := NO_JUMP;
      code := code + [i];
      view := G.Emit(view, i);
    }

    // `luaK_jump`
    method Jump() returns (j: int)
      requires Valid() && Once(view.jpc) && AllOpen(view.code, view.jpc)
      modifies this
      ensures Valid() && view == G.EmitJump(old(view)).0 && Threads(code, j, G.EmitJump(old(view)).1)
      ensures LinksHere(old(code), old(view), code)
    {
      var saved := jpc;
      jpc := NO_JUMP;
      var n := |code|;
      ghost var before, js := code, view.jpc;
      code := code + [JMP(NO_JUMP)];
      ThreadsFramed(before, code, saved, js);
      assert Threads(code, n, [n]) by { assert [n][1..] == []; }
      assert Once([n]) && Apart([n], js);
      j := Concat(n, saved, [n], js);
      view := G.EmitJump(view).0;
    }

    method CondJump(test: Instr) returns (j: int)
      requires Valid() && Once(view.jpc) && AllOpen(view.code, view.jpc) && !test.JMP?
      modifies this
      ensures Valid() && view == G.CondJump(old(view), test).0 && Threads(code, j, G.CondJump(old(view), test).1)
      ensures LinksHere(old(code), old(view), code)
    {
      EmitOpen(view, test);
      Code(test);
      j := Jump();
    }

    // `luaK_patchtohere`
    method PatchToHere(list: int, ghost js: seq<int>)
      requires Valid() && Once(view.jpc) && AllOpen(view.code, view.jpc) && TidyList(view, js) &&
        Threads(code, list, js)
      modifies this
      ensures Valid() && view == G.PatchToHere(old(view), js) && LinksHere(old(code), old(view), code)
      ensures |code| == |old(code)|
    {
      ghost var old_jpc := view.jpc;
      jpc := Concat(jpc, list, view.jpc, js);
      view := G.PatchToHere(view, js);
      assert Same(code, view.code) by {
        forall i | 0 <= i < |code| ensures code[i] == view.code[i] || (view.code[i] == JMP(NO_JUMP) && code[i].JMP?) {
          if i in old_jpc { assert Open(view.code, i); }
        }
      }
    }

    // `addk`
    method AddK(v: Value) returns (i: nat)
      requires Valid()
      modifies `k, `view
      ensures Valid() && view == G.AddK(old(view), v) && i == G.IndexOf(old(view).k, v)
    {
      i := G.IndexOf(k, v);
      if i == |k| {
        k := k + [v];
      }
      view := G.AddK(view, v);
    }

    // ----- registers -----

    method ReserveReg()
      requires Valid()
      modifies `freereg, `view
      ensures Valid() && view == G.ReserveReg(old(view))
    {
      freereg := freereg + 1;
      view := G.ReserveReg(view);
    }

    // `freeexp`
    method FreeExp(e: ExpDesc, ghost d: G.Desc)
      requires Valid() && e.k == d.k
      modifies `freereg, `view
      ensures Valid() && view == G.FreeExp(old(view), d)
    {
      if e.k.VNonReloc? && e.k.reg >= nactvar {
        freereg := freereg - 1;
      }
      view := G.FreeExp(view, d);
    }

    function Top(): nat
      reads this
    {
      if freereg >= 0 then freereg else 0
    }

    // ----- discharge -----

    // An instruction that is not a jump is replaced by another one.
    method Replace(pc: int, i: Instr)
      requires Valid() && 0 <= pc < |code| && !view.code[pc].JMP? && !i.JMP? && AllOpen(view.code, view.jpc)
      modifies `code, `view
      ensures Valid() && view == old(view).(code := G.Put(old(view).code, pc, i)) &&
        LinksHere(old(code), old(view), code)
      ensures forall j :: 0 <= j < |code| && old(code)[j].JMP? ==> code[j] == old(code)[j]
    {
      ghost var before := code;
      code := code[pc := i];
      ThreadsFramed(before, code, jpc, view.jpc);
      view := view.(code := G.Put(view.code, pc, i));
    }

    method Discharge2Reg(e0: ExpDesc, reg: nat, ghost d: G.Desc) returns (e: ExpDesc)
      requires Valid() && Tidy(view, d) && Shows(code, e0, d)
      modifies this
      ensures Valid() && view == G.Discharge2Reg(old(view), d, reg).0 &&
        Shows(code, e, G.Discharge2Reg(old(view), d, reg).1)
      ensures LinksHere(old(code), old(view), code)
    {
      e := if e0.k.VLocal? then e0.(k := G.VNonReloc(e0.k.reg)) else e0;
      ghost var fs, c := view, code;
      hide G.Emit, Once, Threads;
      if e.k.VReloc? {
        Replace(e.k.pc, G.SetA(code[e.k.pc], reg));
      } else if e.k.VKNum? {
        var i := AddK(Num(e.k.nval));
        Code(LOADK(reg, i));
      } else if e.k.VJmp? {
        return;
      } else if !(e.k.VNonReloc? && e.k.reg == reg) {
        Code(DischargeInstr(e.k, reg));
      }
      ShownStill(c, fs, code, e0, d);
      e := e.(k := G.VNonReloc(reg));
    }

    method Discharge2AnyReg(e0: ExpDesc, ghost d: G.Desc) returns (e: ExpDesc)
      requires Valid() && Tidy(view, d) && Shows(code, e0, d)
      modifies this
      ensures Valid() && view == G.Discharge2AnyReg(old(view), d).0 &&
        Shows(code, e, G.Discharge2AnyReg(old(view), d).1)
      ensures LinksHere(old(code), old(view), code)
    {
      if e0.k.VNonReloc? {
        return e0;
      }
      var reg := Top();
      ReserveReg();
      e := Discharge2Reg(e0, reg, d);
    }

    // ----- exp2reg -----

    // `code_label`, twice
    method Labels(reg: nat)
      requires Valid() && Once(view.jpc) && AllOpen(view.code, view.jpc)
      modifies this
      ensures Valid() && view == G.Labels(old(view), reg) && LinksHere(old(code), old(view), code)
    {
      EmitOpen(view, LOADBOOL(reg, false, true));
      Code(LOADBOOL(reg, false, true));
      Code(LOADBOOL(reg, true, false));
    }

    // `patchlistaux` on both lists
    method CloseLists(e: ExpDesc, reg: nat, pf: int, pt: int, ghost d: G.Desc)
      requires Valid() && Tidy(view, d) && Shows(code, e, d)
      modifies this
      ensures Valid() && view == G.CloseLists(old(view), d, reg, pf, pt) && Links(old(code), old(view), d, code)
      ensures |code| == |old(code)|
    {
      var final := |code|;
      ghost var before, fs := code, view;
      PatchListAux(e.f, final, reg, pf, d.f);
      ThreadsFramed(before, code, e.t, d.t) by { OpenJumps(before, view.code, d.t); }
      ThreadsFramed(before, code, jpc, view.jpc) by { OpenJumps(before, view.code, view.jpc); }
      view := view.(code := G.Patched(view.code, d.f, final, reg, pf));
      ghost var middle := code;
      StillOpen(fs, d, d.t, final, reg, pf);
      PatchListAux(e.t, final, reg, pt, d.t);
      ThreadsFramed(middle, code, jpc, view.jpc)
        by { StillOpen(fs, d, fs.jpc, final, reg, pf); OpenJumps(middle, view.code, view.jpc); }
      view := view.(code := G.Patched(view.code, d.t, final, reg, pt));
      forall j | Open(fs.code, j) && !Mine(fs, d, j) && j < |before| ensures code[j] == before[j] {
        SameOpen(before, fs.code, j);
      }
    }

    // The jump over the loads, the loads, and the jump back on the list to here
    method WithLabels(jmp: bool, reg: nat)
      requires Valid() && Once(view.jpc) && AllOpen(view.code, view.jpc)
      modifies this
      ensures Valid() && view == LuaRegisters.WithLabels(old(view), jmp, reg) && LinksHere(old(code), old(view), code)
      ensures |code| == |old(code)| + if jmp then 2 else 3
    {
      ghost var fs, c := view, code;
      if jmp {
        Labels(reg);
        assert G.PatchToHere(view, []) == view;
      } else {
        EmitJumpMakes(view, Bare(G.VTrue));
        var fj := Jump();
        ghost var js, f1, c1 := G.EmitJump(fs).1, view, code;
        Labels(reg);
        ThreadsFramed(c1, code, fj, js);
        LabelsOpen(f1, reg, js);
        PatchToHere(fj, js);
      }
    }

    // A list joins the true or the false jumps of an expression.
    method AddTo(when: bool, e0: ExpDesc, list: int, ghost d: G.Desc, ghost js: seq<int>) returns (e: ExpDesc)
      requires Valid() && Tidy(view, d) && Free(d.k) && Shows(code, e0, d) && TidyList(view, js) &&
        Threads(code, list, js)
      requires Apart(js, d.t) && Apart(js, d.f)
      modifies `code
      ensures Valid() && |code| == |old(code)|
      ensures Shows(code, e, if when then d.(t := d.t + js) else d.(f := d.f + js))
      ensures forall j :: 0 <= j < |code| && !Mine(view, d, j) && j !in js ==> code[j] == old(code)[j]
    {
      ghost var before := code;
      ghost var a, b := if when then d.t else d.f, if when then d.f else d.t;
      e := e0;
      if when {
        var l := Concat(e0.t, list, d.t, js);
        e := e.(t := l);
      } else {
        var l := Concat(e0.f, list, d.f, js);
        e := e.(f := l);
      }
      ThreadsFramed(before, code, jpc, view.jpc);
      ThreadsFramed(before, code, if when then e0.f else e0.t, b);
      forall i | 0 <= i < |code| ensures code[i] == view.code[i] || (view.code[i] == JMP(NO_JUMP) && code[i].JMP?) {
        if i in a { assert Open(view.code, i); }
      }
    }

    method Exp2Reg(e0: ExpDesc, reg: nat, ghost d: G.Desc) returns (e: ExpDesc)
      requires Valid() && Tidy(view, d) && Shows(code, e0, d)
      modifies this
      ensures Valid() && view == G.Exp2Reg(old(view), d, reg).0 && Shows(code, e, G.Exp2Reg(old(view), d, reg).1)
      ensures Links(old(code), old(view), d, code)
    {
      hide G.Discharge2Reg, G.Exp2Reg, Settle, Once, Threads;
      ghost var fs, c0 := view, code;
      Discharge2RegGoes(fs, d, reg);
      SettleIsExp2Reg(fs, d, reg);
      var e1 := Discharge2Reg(e0, reg, d);
      e := SettleLists(e1, reg, G.Discharge2Reg(fs, d, reg).1, c0, fs, d);
    }

    // `exp2reg` once the value is in place
    method SettleLists(e1: ExpDesc, reg: nat, ghost d1: G.Desc, ghost c0: seq<Instr>, ghost fs: G.Fs, ghost d: G.Desc)
        returns (e: ExpDesc)
      requires Valid() && Tidy(view, d1) && Shows(code, e1, d1) && (d1.k.VJmp? || d1.k == G.VNonReloc(reg))
      requires LinksHere(c0, fs, code) && Leaves(fs, d, view, d1)
      modifies this
      ensures Valid() && view == Settle(old(view), d1, reg) && Shows(code, e, LuaRegisters.Placed(reg))
      ensures Links(c0, fs, d, code)
    {
      ghost var f1, c1 := view, code;
      HereLinks(c0, fs, d, c1);
      SettleGoes(f1, d1, reg);
      e := ExpDesc(G.VNonReloc(reg), NO_JUMP, NO_JUMP);
      var e2 := e1.(k := G.VNonReloc(reg));
      ghost var d2 := LuaRegisters.Listed(d1).(k := G.VNonReloc(reg));
      if e1.k.VJmp? {
        ListedGoes(f1, d1, G.VNonReloc(reg));
        e2 := AddTo(true, e2, e1.k.pc, d1.(k := G.VNonReloc(reg)), [e1.k.pc]);
      } else {
        KindGoes(f1, d1, G.VNonReloc(reg));
      }
      assert Tidy(view, d2) && Shows(code, e2, d2) && Links(c1, f1, d1, code);
      LinksOn(c0, fs, d, c1, f1, d1, code);
      assert Leaves(fs, d, f1, d2) by { GoesOn(fs, d, f1, d1, f1, d2); }
      if e2.t != NO_JUMP || e2.f != NO_JUMP {
        FinishLists(e1.k.VJmp?, e2, reg, d2, c0, fs, d);
      }
    }

    method NeedsLoads(e: ExpDesc, ghost d: G.Desc) returns (need: bool)
      requires Valid() && Shows(code, e, d)
      ensures need == (G.NeedValue(view.code, d.t) || G.NeedValue(view.code, d.f))
    {
      SameNeeds(code, view.code, d.t);
      SameNeeds(code, view.code, d.f);
      need := NeedValue(e.t, d.t);
      if !need {
        need := NeedValue(e.f, d.f);
      }
    }

    method LabelsOn(jmp: bool, e2: ExpDesc, reg: nat, ghost d2: G.Desc, ghost c0: seq<Instr>, ghost fs: G.Fs,
        ghost d: G.Desc)
      requires Valid() && Tidy(view, d2) && Free(d2.k) && Shows(code, e2, d2)
      requires Links(c0, fs, d, code) && Leaves(fs, d, view, d2)
      modifies this
      ensures Valid() && view == LuaRegisters.WithLabels(old(view), jmp, reg) && Goes(fs, d, view, d2)
      ensures Links(c0, fs, d, code) && Shows(code, e2, d2) && |code| == |old(code)| + if jmp then 2 else 3
    {
      ghost var f1, c1 := view, code;
      TidyHere(view, d2);
      WithLabelsGoes(f1, d2, jmp, reg);
      hide Tidy, Leaves, Links, LinksHere, Same, Threads, Once, LuaRegisters.WithLabels, Shows;
      WithLabels(jmp, reg);
      assert |f1.code| == |c1| by { SameLength(c1, f1.code); }
      ShownStill(c1, f1, code, e2, d2);
      HereLinks(c1, f1, d2, code);
      LinksOn(c0, fs, d, c1, f1, d2, code);
      GoesOn(fs, d, f1, d2, view, d2);
    }

    method CloseOn(e2: ExpDesc, reg: nat, pf: int, pt: int, ghost d2: G.Desc, ghost c0: seq<Instr>, ghost fs: G.Fs,
        ghost d: G.Desc)
      requires Valid() && Tidy(view, d2) && Shows(code, e2, d2)
      requires Links(c0, fs, d, code) && Leaves(fs, d, view, d2)
      modifies this
      ensures Valid() && view == G.CloseLists(old(view), d2, reg, pf, pt) && Links(c0, fs, d, code)
    {
      ghost var f1, c1 := view, code;
      hide Tidy, Leaves, Links, Same, Threads, Shows, G.CloseLists;
      CloseLists(e2, reg, pf, pt, d2);
      LinksOn(c0, fs, d, c1, f1, d2, code);
    }

    method FinishLists(jmp: bool, e2: ExpDesc, reg: nat, ghost d2: G.Desc, ghost c0: seq<Instr>, ghost fs: G.Fs,
        ghost d: G.Desc)
      requires Valid() && Tidy(view, d2) && d2.k == G.VNonReloc(reg) && Shows(code, e2, d2)
      requires Links(c0, fs, d, code) && Leaves(fs, d, view, d2)
      modifies this
      ensures Valid() && view == Finish(old(view), jmp, d2, reg) && Links(c0, fs, d, code)
    {
      hide Tidy, Leaves, Links, Same, Threads, Shows, G.CloseLists, G.NeedValue, LuaRegisters.WithLabels;
      var need := NeedsLoads(e2, d2);
      if need {
        LabelsOn(jmp, e2, reg, d2, c0, fs, d);
        assert |view.code| == |code| by { SameLength(code, view.code); }
        CloseOn(e2, reg, |code| - 2, |code| - 1, d2, c0, fs, d);
      } else {
        CloseOn(e2, reg, NO_JUMP, NO_JUMP, d2, c0, fs, d);
      }
    }

    // ----- operands -----

    method Exp2NextReg(e0: ExpDesc, ghost d: G.Desc) returns (e: ExpDesc)
      requires Valid() && Tidy(view, d) && Shows(code, e0, d)
      modifies this
      ensures Valid() && view == G.Exp2NextReg(old(view), d).0 && Shows(code, e, G.Exp2NextReg(old(view), d).1)
      ensures Links(old(code), old(view), d, code)
    {
      ghost var fs, d1 := view, G.DischargeVars(d);
      var e1 := if e0.k.VLocal? then e0.(k := G.VNonReloc(e0.k.reg)) else e0;
      VarsGo(fs, d);
      FreeGoes(fs, d1, d1);
      RegsGo(G.FreeExp(fs, d1), d1, G.FreeExp(fs, d1).freereg + 1);
      FreedOnlyRegs(fs, d1);
      hide Tidy, Leaves, Same, Threads, G.Exp2Reg, G.FreeExp;
      FreeExp(e1, d1);
      var reg := Top();
      ReserveReg();
      e := Exp2Reg(e1, reg, d1);
      assert Links(old(code), fs, d, code) by { SameMine(fs, d, view, d1); }
    }

    method Exp2AnyReg(e0: ExpDesc, ghost d: G.Desc) returns (e: ExpDesc)
      requires Valid() && Tidy(view, d) && Shows(code, e0, d)
      modifies this
      ensures Valid() && view == G.Exp2AnyReg(old(view), d).0 && Shows(code, e, G.Exp2AnyReg(old(view), d).1)
      ensures Links(old(code), old(view), d, code)
    {
      ghost var fs, d1 := view, G.DischargeVars(d);
      var e1 := if e0.k.VLocal? then e0.(k := G.VNonReloc(e0.k.reg)) else e0;
      VarsGo(fs, d);
      ShownHeads(code, e1, d1);
      hide Tidy, Leaves, Same, Threads, G.Exp2Reg, G.Exp2NextReg;
      if e1.k.VNonReloc? && e1.t == NO_JUMP && e1.f == NO_JUMP {
        e := e1;
      } else if e1.k.VNonReloc? && e1.k.reg >= nactvar {
        e := Exp2Reg(e1, e1.k.reg, d1);
      } else {
        e := Exp2NextReg(e1, d1);
      }
    }

    method Exp2Val(e0: ExpDesc, ghost d: G.Desc) returns (e: ExpDesc)
      requires Valid() && Tidy(view, d) && Shows(code, e0, d)
      modifies this
      ensures Valid() && view == G.Exp2Val(old(view), d).0 && Shows(code, e, G.Exp2Val(old(view), d).1)
      ensures Links(old(code), old(view), d, code)
    {
      ShownHeads(code, e0, d);
      hide Tidy, Same, Threads, G.Exp2AnyReg;
      if e0.t != NO_JUMP || e0.f != NO_JUMP {
        e := Exp2AnyReg(e0, d);
      } else {
        e := if e0.k.VLocal? then e0.(k := G.VNonReloc(e0.k.reg)) else e0;
      }
    }

    method Exp2RK(e0: ExpDesc, ghost d: G.Desc) returns (e: ExpDesc)
      requires Valid() && Tidy(view, d) && Shows(code, e0, d)
      modifies this
      ensures Valid() && view == G.Exp2RK(old(view), d).0 && Shows(code, e, G.Exp2RK(old(view), d).1)
      ensures Links(old(code), old(view), d, code)
    {
      ghost var fs, c0 := view, code;
      Exp2ValGoes(fs, d);
      hide Tidy, Leaves, Same, Threads, G.Exp2AnyReg, G.Exp2Val, Links, G.IndexOf, G.AddK;
      e := Exp2Val(e0, d);
      ghost var f1, d1, c1 := view, G.Exp2Val(fs, d).1, code;
      if (e.k.VTrue? || e.k.VFalse? || e.k.VKNum?) && |k| <= MAXINDEXRK {
        var i := AddK(G.ConstantOf(e.k).value);
        e := e.(k := G.VK(i));
      } else if !(e.k.VK? && e.k.info <= MAXINDEXRK) {
        e := Exp2AnyReg(e, d1);
        LinksOn(c0, fs, d, c1, f1, d1, code);
      }
    }

    // ----- conditions -----

    // `invertjump`
    method InvertJump(pc: int)
      requires Valid() && AllOpen(view.code, view.jpc)
      modifies this
      ensures Valid() && view == G.InvertJump(old(view), pc)
      ensures forall j :: 0 <= j < |old(code)| && old(code)[j].JMP? ==> j < |code| && code[j] == old(code)[j]
    {
      if 0 <= pc - 1 < |code| && code[pc - 1].COMPARE? {
        Replace(pc - 1, G.Inverted(code[pc - 1]));
      } else {
        view := G.InvertJump(view, pc);
        assert view.code == old(view).code;
      }
    }

    // The last instruction, a NOT, gives way to a test of its operand.
    method TestInstead(pc: int, cond: bool, ghost d: G.Desc) returns (j: int)
      requires Valid() && Tidy(view, d) && d.k == G.VReloc(pc) && code[pc].NOT?
      modifies this
      ensures Valid() && view == G.JumpOnCond(old(view), d, cond).0 &&
        Threads(code, j, G.JumpOnCond(old(view), d, cond).1)
      ensures LinksHere(old(code), old(view), code)
    {
      ghost var fs, c0 := view, code;
      NotDropped(fs, d);
      DroppedHere(c0, fs, d, jpc);
      var b := code[pc].b;
      code := code[..|code| - 1];
      view := view.(code := view.code[..|view.code| - 1]);
      TidyHere(view, d.(k := G.VTrue));
      hide Tidy, Same, Threads, G.CondJump, Leaves;
      j := CondJump(TEST(b, !cond));
      TwiceDropped(c0, fs, code);
    }

    method JumpOnCond(e0: ExpDesc, cond: bool, ghost d: G.Desc) returns (j: int)
      requires Valid() && Tidy(view, d) && Shows(code, e0, d) && !d.k.VJmp?
      modifies this
      ensures Valid() && view == G.JumpOnCond(old(view), d, cond).0 &&
        Threads(code, j, G.JumpOnCond(old(view), d, cond).1)
      ensures LinksHere(old(code), old(view), code)
    {
      ghost var fs, c0 := view, code;
      if e0.k.VReloc? && code[e0.k.pc].NOT? {
        j := TestInstead(e0.k.pc, cond, d);
      } else {
        Discharge2AnyRegGoes(fs, d);
        hide Same, Threads, G.Discharge2AnyReg, G.CondJump, G.FreeExp, Leaves;
        var e := Discharge2AnyReg(e0, d);
        ghost var d1, f1, c1 := G.Discharge2AnyReg(fs, d).1, view, code;
        FreeGoes(f1, d1, d1);
        FreedOnlyRegs(f1, d1);
        FreeExp(e, d1);
        j := CondJump(TESTSET(NO_REG, e.k.reg, cond));
        TwiceHere(c0, fs, d, c1, f1, d1, code);
      }
    }

    // `luaK_goiftrue` and `luaK_goiffalse` up to the list of the jump
    method SplitOff(e: ExpDesc, cond: bool, ghost d: G.Desc) returns (j: int)
      requires Valid() && Tidy(view, d) && Shows(code, e, d)
      modifies this
      ensures Valid() && view == LuaBranches.SplitOff(old(view), d, cond).0 &&
        Threads(code, j, LuaBranches.SplitOff(old(view), d, cond).1)
      ensures LinksHere(old(code), old(view), code)
    {
      TidyHere(view, d);
      hide Tidy, Same, Threads, G.JumpOnCond, Once;
      j := NO_JUMP;
      if NeverJumps(e.k, cond) {
        NothingThreads(code);
      } else if AlwaysJumps(e.k, cond) {
        j := Jump();
      } else if e.k.VJmp? {
        ghost var c := code;
        SomethingThreads(c, view.code, e.k.pc);
        if cond {
          InvertJump(e.k.pc);
          ThreadsKept(c, code, e.k.pc);
          InvertLinks(c, old(view), code);
        }
        j := e.k.pc;
      } else {
        j := JumpOnCond(e, !cond, d);
      }
    }

    // `luaK_goiftrue`
    method GoIfTrue(e0: ExpDesc, ghost d0: G.Desc) returns (e: ExpDesc)
      requires Valid() && Tidy(view, d0) && Shows(code, e0, d0)
      modifies this
      ensures Valid() && view == G.GoIfTrue(old(view), d0).0 && Shows0(code, e, G.GoIfTrue(old(view), d0).1)
      ensures Links(old(code), old(view), d0, code)
    {
      ghost var fs, d, c0 := view, G.DischargeVars(d0), code;
      var e1 := if e0.k.VLocal? then e0.(k := G.VNonReloc(e0.k.reg)) else e0;
      VarsGo(fs, d0);
      SplitOffMakes(fs, d, true);
      GoIfIs(fs, d0, true);
      hide Tidy, Same, Threads, LuaBranches.SplitOff, G.GoIfTrue, Leaves;
      var j := SplitOff(e1, true, d);
      e := Branch(true, e1, j, d, LuaBranches.SplitOff(fs, d, true).1, fs, c0);
      SameMine(fs, d0, fs, d);
    }

    method GoIfFalse(e0: ExpDesc, ghost d0: G.Desc) returns (e: ExpDesc)
      requires Valid() && Tidy(view, d0) && Shows(code, e0, d0)
      modifies this
      ensures Valid() && view == G.GoIfFalse(old(view), d0).0 && Shows0(code, e, G.GoIfFalse(old(view), d0).1)
      ensures Links(old(code), old(view), d0, code)
    {
      ghost var fs, d, c0 := view, G.DischargeVars(d0), code;
      var e1 := if e0.k.VLocal? then e0.(k := G.VNonReloc(e0.k.reg)) else e0;
      VarsGo(fs, d0);
      SplitOffMakes(fs, d, false);
      GoIfIs(fs, d0, false);
      hide Tidy, Same, Threads, LuaBranches.SplitOff, G.GoIfFalse, Leaves;
      var j := SplitOff(e1, false, d);
      e := Branch(false, e1, j, d, LuaBranches.SplitOff(fs, d, false).1, fs, c0);
      SameMine(fs, d0, fs, d);
    }

    // The jump joins one list of the expression, and the other list ends here.
    method Branch(cond: bool, e1: ExpDesc, list: int, ghost d: G.Desc, ghost js: seq<int>, ghost fs: G.Fs,
        ghost c0: seq<Instr>)
      returns (e: ExpDesc)
      requires Valid() && Makes(fs, d, view, js) && Shows(c0, e1, d) && Threads(code, list, js) && Tidy(fs, d)
      requires LinksHere(c0, fs, code) && |c0| == |fs.code|
      modifies this
      ensures Valid() && view == G.PatchToHere(old(view), if cond then d.t else d.f)
      ensures Shows0(code, e, if cond then G.Desc(d.k, [], d.f + js) else G.Desc(d.k, d.t + js, []))
      ensures Links(c0, fs, d, code)
    {
      ghost var f1, c1 := view, code;
      ghost var free := d.(k := G.VTrue);
      ShownStill(c0, fs, c1, e1, d);
      ListMade(fs, d, f1, js, G.VTrue);
      e := AddTo(!cond, e1.(k := G.VTrue), list, free, js);
      ghost var d2 := if cond then free.(f := d.f + js) else free.(t := d.t + js);
      ghost var c2 := code;
      HereGoes(f1, d2);
      PatchToHere(if cond then e.t else e.f, if cond then d.t else d.f);
      ThreadsFramed(c2, code, if cond then e.f else e.t, if cond then d2.f else d2.t) by { KeptOpen(f1, d2, cond, c2); }
      e := if cond then ExpDesc(e1.k, NO_JUMP, e.f) else ExpDesc(e1.k, e.t, NO_JUMP);
      BranchLinks(c0, fs, d, js, c1, f1, c2, code);
    }

    // ----- not -----

    // `removevalues`
    method RemoveValues(list: int, ghost js: seq<int>)
      requires Threads(code, list, js) && Same(code, view.code) && AllOpen(view.code, js)
      modifies `code
      ensures Same(code, G.Devalued(view.code, js))
      ensures forall i :: 0 <= i < |code| && old(code)[i].JMP? ==> code[i] == old(code)[i]
    {
      ghost var c0, open := code, view.code;
      var l := list;
      ghost var p := 0;
      while l != NO_JUMP
        invariant 0 <= p <= |js| && Threads(code, l, js[p..]) && DevaluedTo(code, c0, js[..p])
        decreases |js| - p
      {
        assert js[p..] != [] && js[p..][0] == js[p] && js[p..][1..] == js[p + 1..];
        ghost var before := code;
        var next := Link(code, l);
        if l > 0 && code[l - 1].TESTSET? {
          code := code[l - 1 := G.PatchTest(code[l - 1], NO_REG)];
        }
        DevaluedRound(before, c0, js, p, code);
        AllJumpsOf(before, next, js[p + 1..]);
        ThreadsFramed(before, code, next, js[p + 1..]);
        l := next;
        p := p + 1;
      }
      NoHead(code, l, js[p..]);
      assert js[..p] == js;
    }

    // The value turned round, before the lists are
    method TurnValue(e1: ExpDesc, ghost d: G.Desc) returns (k1: G.Kind)
      requires Valid() && Tidy(view, d) && Shows(code, e1, d) && !d.k.VLocal?
      modifies this
      ensures Valid() && (view, k1) == LuaNot.TurnedOf(old(view), d)
      ensures LinksHere(old(code), old(view), code) && (k1.VJmp? ==> Threads(code, k1.pc, [k1.pc]))
    {
      k1 := e1.k;
      hide Tidy, Same, Threads, G.EmitNot;
      if e1.k.VFalse? {
        k1 := G.VTrue;
      } else if e1.k.VTrue? || e1.k.VK? || e1.k.VKNum? {
        k1 := G.VFalse;
      } else if e1.k.VJmp? {
        TidyHere(view, d);
        ghost var c := code;
        InvertJump(e1.k.pc);
        ThreadsKept(c, code, e1.k.pc);
        InvertLinks(c, old(view), code);
      } else {
        k1 := EmitNot(e1, d);
      }
    }

    method EmitNot(e1: ExpDesc, ghost d: G.Desc) returns (k1: G.Kind)
      requires Valid() && Tidy(view, d) && Shows(code, e1, d) && !d.k.VJmp?
      modifies this
      ensures Valid() && (view, k1) == G.EmitNot(old(view), d) && k1.VReloc? && LinksHere(old(code), old(view), code)
    {
      hide Same, Threads, G.Discharge2AnyReg, G.Emit, G.FreeExp, Leaves, Tidy, LinksHere;
      ghost var fs, c0 := view, code;
      Discharge2AnyRegGoes(fs, d);
      var e := Discharge2AnyReg(e1, d);
      ghost var d1, f1, c1 := G.Discharge2AnyReg(fs, d).1, view, code;
      FreeGoes(f1, d1, d1);
      FreedOnlyRegs(f1, d1);
      TidyHere(f1, d1);
      FreeExp(e, d1);
      Code(NOT(0, e.k.reg));
      FreedHere(c1, f1, d1, code);
      TwiceHere(c0, fs, d, c1, f1, d1, code);
      assert |code| == |view.code| by { SameLength(code, view.code); }
      k1 := G.VReloc(|code| - 1);
    }

    // `codenot`
    method CodeNot(e0: ExpDesc, ghost d0: G.Desc) returns (e: ExpDesc)
      requires Valid() && Tidy(view, d0) && Shows(code, e0, d0)
      modifies this
      ensures Valid() && view == G.CodeNot(old(view), d0).0 && Shows(code, e, G.CodeNot(old(view), d0).1)
      ensures Links(old(code), old(view), d0, code)
    {
      ghost var fs, c0, d := view, code, G.DischargeVars(d0);
      VarsGo(fs, d0);
      TurnGoes(fs, d);
      var e1 := if e0.k.VLocal? then e0.(k := G.VNonReloc(e0.k.reg)) else e0;
      assert |c0| == |fs.code|;
      var k1 := TurnValue(e1, d);
      ghost var f1, c1, d1 := view, code, d.(k := k1);
      assert G.CodeNot(fs, d0) == (LuaNot.SwapFs(f1, d1), LuaNot.SwapDesc(d1));
      hide Tidy, G.CodeNot, Threads, LuaNot.TurnedOf;
      ShownLists(c0, fs, c1, e1, d);
      RemoveBoth(e1, d1);
      e := ExpDesc(k1, e1.f, e1.t);
      TurnedShown(c0, fs, d0, c1, f1, d1, code, e1);
      ListsShown(c1, f1, code, e1, d1);
    }

    method RemoveBoth(e: ExpDesc, ghost d: G.Desc)
      requires Valid() && Tidy(view, d) && Threads(code, e.t, d.t) && Threads(code, e.f, d.f)
      modifies this
      ensures Valid() && view == LuaNot.SwapFs(old(view), d)
      ensures forall i :: 0 <= i < |old(code)| && old(code)[i].JMP? ==> i < |code| && code[i] == old(code)[i]
    {
      ghost var c := code;
      AllJumpsOf(c, e.f, d.f);
      AllJumpsOf(c, jpc, view.jpc);
      RemoveValues(e.t, d.t);
      ThreadsFramed(c, code, e.f, d.f);
      view := view.(code := G.Devalued(view.code, d.t));
      RemoveValues(e.f, d.f);
      ThreadsFramed(c, code, jpc, view.jpc);
      view := view.(code := G.Devalued(view.code, d.f));
    }

    // ----- operators -----

    // `codearith`, with the folding of constants
    method CodeArith(m: Sem, op: ArithOp, e1: ExpDesc, e2: ExpDesc, ghost d1: G.Desc, ghost d2: G.Desc)
        returns (e: ExpDesc)
      requires Valid() && Tidy(view, d2) && Shows(code, e2, d2) && Shows0(code, e1, d1) && d1.t == [] && d1.f == [] &&
        Free(d1.k)
      modifies this
      ensures Valid() && view == G.CodeArith(m, old(view), op, d1, d2).0 &&
        Shows(code, e, G.CodeArith(m, old(view), op, d1, d2).1)
      ensures Links(old(code), old(view), d2, code)
    {
      NumeralHeads(code, e1, d1);
      NumeralHeads(code, e2, d2);
      if Numeral(e1) && Numeral(e2) && !((op == DIV || op == MOD) && e2.k.nval == 0.0) {
        e := ExpDesc(G.VKNum(m.num(op, e1.k.nval, e2.k.nval)), NO_JUMP, NO_JUMP);
      } else {
        ghost var fs := view;
        assert e1 == ExpDesc(d1.k, NO_JUMP, NO_JUMP);
        assert G.CodeArith(m, fs, op, d1, d2) == ArithCode(fs, op, d1, d2) by { hide G.Exp2RK, G.FreeBoth, G.Emit; }
        hide Tidy, Leaves, Same, Threads, Links, ArithCode, G.CodeArith;
        e := ArithOperands(op, e1, e2, d1, d2);
      }
    }

    // The instruction of `codearith`, when the operands are not two numerals
    method ArithOperands(op: ArithOp, e1: ExpDesc, e2: ExpDesc, ghost d1: G.Desc, ghost d2: G.Desc) returns (e: ExpDesc)
      requires Valid() && Tidy(view, d2) && Shows(code, e2, d2) && d1.t == [] && d1.f == [] && Free(d1.k)
      requires e1 == ExpDesc(d1.k, NO_JUMP, NO_JUMP)
      modifies this
      ensures Valid() && view == ArithCode(old(view), op, d1, d2).0 &&
        Shows(code, e, ArithCode(old(view), op, d1, d2).1)
      ensures Links(old(code), old(view), d2, code)
    {
      hide Tidy, Leaves, Same, Threads, G.Exp2RK, G.FreeBoth, G.Emit, Links;
      ghost var fs, c0 := view, code;
      Exp2RKGoes(fs, d2);
      var o2 := Exp2RK(e2, d2);
      ghost var f1, r2, c1 := view, G.Exp2RK(fs, d2).1, code;
      BareOf(r2);
      BareTidy(f1, r2, d1.k);
      BareOf(d1);
      BareShown(code, e1, d1);
      Exp2RKGoes(f1, d1);
      var o1 := Exp2RK(e1, d1);
      ghost var f2, r1, c2 := view, G.Exp2RK(f1, d1).1, code;
      OperandLinks(c0, fs, d2, c1, f1, r2, d1, c2, f2, r1);
      FreeTwo(o1, o2, r1, r2);
      BothOnlyRegs(f2, r1, r2);
      TidyHere(f2, r1);
      BareOf(r1);
      var i := ARITH(0, op, OperandOf(o1.k), OperandOf(o2.k));
      ghost var f3 := view;
      Code(i);
      EmittedLinks(c0, fs, d2, c2, f2, r1, f3, code);
      assert |code| == |view.code| by { SameLength(code, view.code); }
      e := ExpDesc(G.VReloc(|code| - 1), NO_JUMP, NO_JUMP);
      BareShows(code, e);
    }

    method FreeTwo(o1: ExpDesc, o2: ExpDesc, ghost r1: G.Desc, ghost r2: G.Desc)
      requires Valid() && o1.k == r1.k && o2.k == r2.k
      modifies `freereg, `view
      ensures Valid() && view == G.FreeBoth(old(view), r1, r2)
    {
      if RKCode(OperandOf(o1.k)) > RKCode(OperandOf(o2.k)) {
        FreeExp(o1, r1);
        FreeExp(o2, r2);
      } else {
        FreeExp(o2, r2);
        FreeExp(o1, r1);
      }
    }

    method CodeMinus(m: Sem, e0: ExpDesc, ghost d: G.Desc) returns (e: ExpDesc)
      requires Valid() && Tidy(view, d) && Shows(code, e0, d)
      modifies this
      ensures Valid() && view == G.CodeMinus(m, old(view), d).0 && Shows(code, e, G.CodeMinus(m, old(view), d).1)
      ensures Links(old(code), old(view), d, code)
    {
      NumeralHeads(code, e0, d);
      if Numeral(e0) {
        e := e0.(k := G.VKNum(m.num(UNM, e0.k.nval, e0.k.nval)));
        return;
      }
      ghost var fs, c0 := view, code;
      Exp2RKGoes(fs, d);
      hide Tidy, Leaves, Same, Threads, G.Exp2RK, G.FreeExp, G.Emit, Links;
      var o := Exp2RK(e0, d);
      ghost var f1, r, c1 := view, G.Exp2RK(fs, d).1, code;
      TidyHere(f1, r);
      BareOf(r);
      FreedOnlyRegs(f1, r);
      FreeExp(o, r);
      ghost var f2 := view;
      Code(MINUS(0, RKCode(OperandOf(o.k))));
      EmittedLinks(c0, fs, d, c1, f1, r, f2, code);
      assert |code| == |view.code| by { SameLength(code, view.code); }
      e := ExpDesc(G.VReloc(|code| - 1), NO_JUMP, NO_JUMP);
      BareShows(code, e);
    }

    // `codecomp`
    method CodeComp(op: CompareOp, cond: bool, e1: ExpDesc, e2: ExpDesc, ghost d1: G.Desc, ghost d2: G.Desc)
        returns (e: ExpDesc)
      requires Valid() && Tidy(view, d2) && Shows(code, e2, d2) && e1.k == d1.k && G.Exp2RK(view, d1) == (view, d1)
      modifies this
      ensures Valid() && view == G.CodeComp(old(view), op, cond, d1, d2).0 &&
        Shows(code, e, G.CodeComp(old(view), op, cond, d1, d2).1)
      ensures Links(old(code), old(view), d2, code)
    {
      hide Tidy, Leaves, Same, Threads, G.Exp2RK, G.FreeExp, G.CondJump, Links, G.CodeComp;
      ghost var fs, c0 := view, code;
      Exp2RKGoes(fs, d2);
      LuaCompare.CodeCompIs(fs, op, cond, d1, d2);
      var o2 := Exp2RK(e2, d2);
      ghost var f1, r, c1 := view, G.Exp2RK(fs, d2).1, code;
      TidyHere(f1, r);
      BareOf(r);
      FreedOnlyRegs(f1, r);
      FreedOnlyRegs(G.FreeExp(f1, r), d1);
      FreeExp(o2, r);
      FreeExp(e1, d1);
      ghost var f2 := view;
      var j := CondJump(LuaCompare.CompareInstr(op, cond, OperandOf(e1.k), OperandOf(o2.k)));
      EmittedLinks(c0, fs, d2, c1, f1, r, f2, code);
      assert |code| == |view.code| by { SameLength(code, view.code); }
      e := ExpDesc(G.VJmp(|code| - 1), NO_JUMP, NO_JUMP);
      CompareShown(code, f2, LuaCompare.CompareInstr(op, cond, OperandOf(e1.k), OperandOf(o2.k)), j);
    }

    // `luaK_prefix`
    method Prefix(m: Sem, op: UnOp, e0: ExpDesc, ghost d: G.Desc) returns (e: ExpDesc)
      requires Valid() && Tidy(view, d) && Shows(code, e0, d)
      modifies this
      ensures Valid() && view == G.Prefix(m, old(view), op, d).0 && Shows(code, e, G.Prefix(m, old(view), op, d).1)
      ensures Links(old(code), old(view), d, code)
    {
      hide Tidy, Leaves, Same, Threads, G.CodeNot, G.CodeMinus, G.Exp2AnyReg, Links;
      if op == OpNot {
        e := CodeNot(e0, d);
      } else if e0.k.VK? {
        ghost var fs, c0 := view, code;
        Exp2AnyRegGoes(fs, d);
        e := Exp2AnyReg(e0, d);
        ghost var f1, d1, c1 := view, G.Exp2AnyReg(fs, d).1, code;
        e := CodeMinus(m, e, d1);
        LinksOn(c0, fs, d, c1, f1, d1, code);
      } else {
        e := CodeMinus(m, e0, d);
      }
    }

    // `luaK_infix`
    method Infix(op: BinOp, e0: ExpDesc, ghost d: G.Desc) returns (e: ExpDesc)
      requires Valid() && Tidy(view, d) && Shows(code, e0, d)
      modifies this
      ensures Valid() && view == G.Infix(old(view), op, d).0 && Shows0(code, e, G.Infix(old(view), op, d).1)
      ensures Links(old(code), old(view), d, code)
    {
      NumeralHeads(code, e0, d);
      SelfLinks(code, view, d);
      hide Tidy, Same, Threads, G.GoIfTrue, G.GoIfFalse, G.Exp2RK, Links;
      if op == OpAnd {
        e := GoIfTrue(e0, d);
      } else if op == OpOr {
        e := GoIfFalse(e0, d);
      } else if op.OpArith? && Numeral(e0) {
        e := e0;
      } else {
        e := Exp2RK(e0, d);
      }
    }

    // `luaK_posfix` for `and` and `or`
    method JoinLists(cond: bool, e1: ExpDesc, e2: ExpDesc, ghost d1: G.Desc, ghost d0: G.Desc) returns (e: ExpDesc)
      requires Valid() && Tidy(view, d0) && Shows(code, e2, d0) && Shows0(code, e1, d1)
      requires TidyList(view, if cond then d1.f else d1.t) && forall j ::
        j in (if cond then d1.f else d1.t) ==> !Mine(view, d0, j)
      modifies `code
      ensures Valid()
      ensures var d := G.DischargeVars(d0); Shows(code, e, if cond then d.(f := d.f + d1.f) else d.(t := d.t + d1.t))
      ensures forall j ::
        0 <= j < |old(code)| && !Mine(view, d0, j) && j !in d1.t && j !in d1.f ==> j < |code| && code[j] == old(code)[j]
    {
      ghost var d := G.DischargeVars(d0);
      ghost var free := d.(k := G.VTrue);
      ghost var before := code;
      var k1 := if e2.k.VLocal? then G.VNonReloc(e2.k.reg) else e2.k;
      KindTidy(view, d0, G.VTrue);
      ghost var js := if cond then d1.f else d1.t;
      assert Apart(js, free.t) && Apart(js, free.f) by {
        forall j | j in js ensures j !in free.t && j !in free.f { assert !Mine(view, d0, j); }
      }
      assert k1.VJmp? ==> Mine(view, d0, k1.pc) && !Mine(view, free, k1.pc);
      hide Same, Threads;
      e := AddTo(!cond, e2.(k := G.VTrue), if cond then e1.f else e1.t, free, js);
      e := e.(k := k1);
      if k1.VJmp? { ThreadsFramed(before, code, k1.pc, [k1.pc]); }
    }

    method Posfix(m: Sem, op: BinOp, e1: ExpDesc, e2: ExpDesc, ghost d1: G.Desc, ghost d2: G.Desc, ghost f1: G.Fs)
        returns (e: ExpDesc)
      requires Valid() && Shows(code, e2, d2) && Shows0(code, e1, d1)
      requires Tidy(f1, d1.(k := G.VTrue)) && Goes(f1, Bare(G.VTrue), view, d2)
      requires !IsLogic(op) ==> d1.t == [] && d1.f == [] && Free(d1.k) && (!op.OpArith? ==> Small(d1.k))
      requires op == OpAnd ==> d1.t == []
      requires op == OpOr ==> d1.f == []
      modifies this
      ensures Valid() && view == G.Posfix(m, old(view), op, d1, d2).0 &&
        Shows(code, e, G.Posfix(m, old(view), op, d1, d2).1)
      ensures LinksBut(old(code), old(view), d2, d1, code)
    {
      ghost var c0, f2 := code, view;
      hide Same, Threads, G.CodeArith, G.CodeComp;
      if op == OpAnd || op == OpOr {
        BesidesApart(f1, d1, view, d2);
        e := JoinLists(op == OpAnd, e1, e2, d1, d2);
      } else {
        if !op.OpArith? { SmallStays(view, d1); }
        match op {
          case OpArith(o) => e := CodeArith(m, o, e1, e2, d1, d2);
          case OpEq => e := CodeComp(EQ, true, e1, e2, d1, d2);
          case OpNe => e := CodeComp(EQ, false, e1, e2, d1, d2);
          case OpLt => e := CodeComp(LT, true, e1, e2, d1, d2);
          case OpLe => e := CodeComp(LE, true, e1, e2, d1, d2);
          case OpGt => e := CodeComp(LT, false, e1, e2, d1, d2);
          case OpGe => e := CodeComp(LE, false, e1, e2, d1, d2);
          case _ =>
        }
        assert LinksBut(c0, f2, d2, d1, code);
      }
    }

    // What `subexpr` does for an expression. The lists of the expressions around it, in `view`
    // but not its own, keep their threads.
    method Compile(m: Sem, ex: Expr) returns (e: ExpDesc)
      requires Valid() && Tidy(view, Bare(G.VTrue))
      modifies this
      ensures Valid() && view == G.Compile(m, old(view), ex).0 && Shows(code, e, G.Compile(m, old(view), ex).1)
      ensures Goes(old(view), Bare(G.VTrue), view, G.Compile(m, old(view), ex).1)
      ensures Links(old(code), old(view), Bare(G.VTrue), code)
      decreases ex
    {
      ghost var fs, c0 := view, code;
      CompileGoes(m, fs, ex);
      SelfLinks(code, view, Bare(G.VTrue));
      match ex {
        case Local(i) => e := ExpDesc(G.VLocal(i), NO_JUMP, NO_JUMP);
        case True => e := ExpDesc(G.VTrue, NO_JUMP, NO_JUMP);
        case False => e := ExpDesc(G.VFalse, NO_JUMP, NO_JUMP);
        case Number(n) => e := ExpDesc(G.VKNum(n), NO_JUMP, NO_JUMP);
        case String(s) =>
          var i := AddK(Str(s));
          e := ExpDesc(G.VK(i), NO_JUMP, NO_JUMP);
        case Unary(op, a) =>
          hide Tidy, Leaves, Same, Threads, G.Prefix, Links;
          e := Compile(m, a);
          ghost var f1, d1, c1 := view, G.Compile(m, fs, a).1, code;
          e := Prefix(m, op, e, d1);
          LinksOn(c0, fs, Bare(G.VTrue), c1, f1, d1, code);
        case Binary(op, a, b) =>
          hide Tidy, Leaves, Same, Threads, G.Infix, G.Posfix, Links, Small, Free, LinksBut;
          var e1 := Compile(m, a);
          ghost var f1, d1, c1 := view, G.Compile(m, fs, a).1, code;
          InfixGoes(f1, op, d1);
          LogicLists(f1, op, d1);
          e1 := Infix(op, e1, d1);
          ghost var f2, r1, c2 := view, G.Infix(f1, op, d1).1, code;
          LinksOn(c0, fs, Bare(G.VTrue), c1, f1, d1, c2);
          BareTidy(f2, r1.(k := G.VTrue), G.VTrue);
          var e2 := Compile(m, b);
          ghost var f3, d2, c3 := view, G.Compile(m, f2, b).1, code;
          LeftThreads(c2, f2, r1, c3, e1);
          e := Posfix(m, op, e1, e2, r1, d2, f2);
          BinaryLinks(c0, fs, f1, d1, c2, f2, r1, c3, f3, d2, code);
      }
    }

    // An expression into the next register, and the instruction after it: no jump is left
    // without a target but those of the expressions around it. Where there are none, the code
    // has no links in it any more.
    method CompileToNext(m: Sem, ex: Expr, next: Instr)
      requires Valid() && Tidy(view, Bare(G.VTrue)) && !next.JMP?
      modifies this
      ensures Valid() && view == G.Emit(LuaTheorem.CompileToNext(m, old(view), ex), next)
      ensures forall j :: Open(view.code, j) <==> Open(old(view).code, j) && j !in old(view).jpc
      ensures (forall j :: Open(old(view).code, j) ==> j in old(view).jpc) ==> code == view.code
    {
      ghost var fs := view;
      hide Tidy, Same, Threads, Leaves, G.Compile, G.Exp2NextReg, G.Emit;
      var e := Compile(m, ex);
      ghost var d := G.Compile(m, fs, ex).1;
      ghost var f1 := view;
      Exp2NextRegGoes(f1, d);
      e := Exp2NextReg(e, d);
      ghost var f2, d2 := view, G.Exp2NextReg(f1, d).1;
      TidyHere(f2, d2);
      Code(next);
      NothingLeft(fs, f1, d, f2, d2, next);
      NoLinks(code, view.code);
    }
  }

  // A function with `n` locals and no code yet
  function Empty(n: nat): G.Fs {
    G.Fs([], [], [], n, n)
  }

  lemma EmitOnlyCode(fs: G.Fs, i: Instr)
    ensures var f := G.Emit(fs, i); f.k == fs.k && f.freereg == fs.freereg && f.nactvar == fs.nactvar
  {
  }

  lemma StartsEmpty(n: nat)
    ensures LuaCompile.Start(Empty(n)) && IsEntry(CtxOf(Empty(n)), 0)
  {
  }

  // What the theorem on values says of a function that starts empty
  ghost predicate EmptyTheorem(m: Sem, n: nat, ex: Expr, next: Instr, r: Regs) {
    var f := LuaTheorem.CompileToNext(m, Empty(n), ex);
    var code := G.Emit(f, next).code;
    && f.freereg == n + 1 && |code| > 0
    && LuaTheorem.Yields(m, f.k, code, 0, 0, n, n, r, LuaTheorem.Computes(m, Empty(n), ex, 0, r))
    && (LuaTheorem.Yields(m, f.k, code, 0, 0, n, n, r, Eval(m, ex, r)) <==> LuaTheorem.Right(m, Empty(n), ex, 0, r))
    && (LuaClean.Clean(m, Empty(n), ex) ==> LuaTheorem.Right(m, Empty(n), ex, 0, r))
  }

  lemma ComputesFromEmpty(m: Sem, n: nat, ex: Expr, next: Instr, r: Regs)
    requires Scoped(ex, n) && LuaCompile.Steady(m, Empty(n), ex)
    ensures EmptyTheorem(m, n, ex, next, r)
  {
    hide G.Emit, LuaTheorem.CompileToNext, LuaTheorem.Yields, LuaTheorem.Computes, LuaCompile.Steady, LuaClean.Clean,
      LuaTheorem.Right;
    StartsEmpty(n);
    LuaTheorem.ExpressionsAreCompiledCorrectly(m, Empty(n), ex, next, 0, r);
    if LuaClean.Clean(m, Empty(n), ex) { LuaClean.CleanIsRight(m, Empty(n), ex, 0, r); }
  }

  // A function compiled in place, from nothing: the expression into the first free register,
  // and one more instruction. The code has no waiting jump and no link left in it, and the
  // machine leaves the value of the expression exactly where its exit has it.
  method CompileFunction(m: Sem, n: nat, ex: Expr, next: Instr) returns (s: FuncState)
    requires Scoped(ex, n) && LuaCompile.Steady(m, Empty(n), ex) && !next.JMP?
    ensures fresh(s) && s.Valid() && s.nactvar == n && s.freereg == n + 1 && |s.code| > 0
    ensures s.code == s.view.code && forall j :: !Open(s.code, j)
    ensures forall r :: LuaTheorem.Yields(m, s.k, s.code, 0, 0, n, n, r, LuaTheorem.Computes(m, Empty(n), ex, 0, r))
    ensures forall r ::
      LuaTheorem.Yields(m, s.k, s.code, 0, 0, n, n, r, Eval(m, ex, r)) <==> LuaTheorem.Right(m, Empty(n), ex, 0, r)
    ensures LuaClean.Clean(m, Empty(n), ex) ==> forall r ::
      LuaTheorem.Yields(m, s.k, s.code, 0, 0, n, n, r, Eval(m, ex, r))
  {
    hide G.Emit, LuaTheorem.CompileToNext, LuaTheorem.Yields, LuaTheorem.Computes, LuaCompile.Steady, LuaClean.Clean,
      LuaTheorem.Right, Tidy;
    s := new FuncState(n);
    s.CompileToNext(m, ex, next);
    ghost var f := LuaTheorem.CompileToNext(m, Empty(n), ex);
    EmitOnlyCode(f, next);
    ComputesFromEmpty(m, n, ex, next, map[]);
    forall r
      ensures LuaTheorem.Yields(m, s.k, s.code, 0, 0, n, n, r, LuaTheorem.Computes(m, Empty(n), ex, 0, r))
      ensures LuaTheorem.Yields(m, s.k, s.code, 0, 0, n, n, r, Eval(m, ex, r)) <==>
        LuaTheorem.Right(m, Empty(n), ex, 0, r)
      ensures LuaClean.Clean(m, Empty(n), ex) ==> LuaTheorem.Yields(m, s.k, s.code, 0, 0, n, n, r, Eval(m, ex, r))
    {
      ComputesFromEmpty(m, n, ex, next, r);
    }
  }
}
