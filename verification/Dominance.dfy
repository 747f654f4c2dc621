/** The emitted function is in SSA form: on every path of the control-flow graph, whatever the branches
    decide, a register is defined before it is used; in particular a cached value that is reused was
    defined in a block that dominates the reuse. */
module Dominance {
  import opened Ast
  import opened Evaluation
  import opened Ir
  import opened Codegen
  import opened Sharing
  import opened EmitFrame
  import opened CodegenCorrect
  import opened NodeIds
  import opened Program

  function Uses(v: Value): set<nat> {
    if v.Reg? then {v.r} else {}
  }

  function UsesAll(vs: seq<Value>): set<nat> {
    set i, r | 0 <= i < |vs| && r in Uses(vs[i]) :: r
  }

  /** The registers an instruction reads where it stands; a phi reads at the end of its predecessors. */
  function Reads(i: Instr): set<nat> {
    match i
    case INeg(x) => Uses(x)
    case IBin(_, l, r) => Uses(l) + Uses(r)
    case IMath(_, x) => Uses(x)
    case IStep(_, vs) => UsesAll(vs)
    case IStore(_, x) => Uses(x)
    case _ => {}
  }

  function Defs(instrs: seq<(nat, Instr)>): set<nat> {
    set k | 0 <= k < |instrs| :: instrs[k].0
  }

  lemma DefsAppend(instrs: seq<(nat, Instr)>, x: (nat, Instr))
    ensures Defs(instrs + [x]) == Defs(instrs) + {x.0}
  {
    var more := instrs + [x];
    forall r | r in Defs(instrs) ensures r in Defs(more) {
      var k :| 0 <= k < |instrs| && instrs[k].0 == r;
      assert more[k].0 == r;
    }
    assert more[|instrs|].0 == x.0;
  }

  /** Registers defined on every path to the end of block `b`, given those defined at its start. */
  function OutOf(blocks: seq<Block>, dom: seq<set<nat>>, b: nat): set<nat>
    requires b < |blocks| && b < |dom|
  {
    dom[b] + Defs(blocks[b].instrs)
  }

  ghost predicate EdgeOk(blocks: seq<Block>, dom: seq<set<nat>>, b: nat, t: nat)
    requires b < |blocks| == |dom|
  {
    t < |blocks| && dom[t] <= OutOf(blocks, dom, b)
  }

  ghost predicate InstrOk(blocks: seq<Block>, dom: seq<set<nat>>, b: nat, j: nat)
    requires b < |blocks| == |dom| && j < |blocks[b].instrs|
  {
    var i := blocks[b].instrs[j].1;
    && Reads(i) <= dom[b] + Defs(blocks[b].instrs[..j])
    && (i.IPhi? ==>
          && i.thenBlock < |blocks| && Uses(i.thenValue) <= OutOf(blocks, dom, i.thenBlock)
          && i.elseBlock < |blocks| && Uses(i.elseValue) <= OutOf(blocks, dom, i.elseBlock))
  }

  ghost predicate TermOk(blocks: seq<Block>, dom: seq<set<nat>>, b: nat)
    requires b < |blocks| == |dom|
  {
    match blocks[b].term
    case Br(t) => EdgeOk(blocks, dom, b, t)
    case CondBr(v, t, f) => Uses(v) <= OutOf(blocks, dom, b) && EdgeOk(blocks, dom, b, t) && EdgeOk(blocks, dom, b, f)
    case _ => true
  }

  ghost predicate BlockOk(blocks: seq<Block>, dom: seq<set<nat>>, b: nat)
    requires b < |blocks| == |dom|
  {
    (forall j | 0 <= j < |blocks[b].instrs| :: InstrOk(blocks, dom, b, j)) && TermOk(blocks, dom, b)
  }

  /** `dom[b]` holds registers that every path into block `b` has defined. */
  ghost predicate Certified(blocks: seq<Block>, dom: seq<set<nat>>) {
    |blocks| == |dom| && forall b | 0 <= b < |blocks| :: BlockOk(blocks, dom, b)
  }

  /** The `dom` sets of the blocks that emission creates, and the registers in scope where it ends. */
  function EmitDom(e: Expr, cg: CodegenState, scope: set<nat>): (r: (seq<set<nat>>, set<nat>))
    requires Runnable(e) && Usable(cg)
    ensures scope <= r.1
    decreases e, 1
  {
    match e
    case Num(_) => ([], scope)
    case Param(_, _) => ([], scope + {cg.nextReg})
    case Unary(op, x) =>
      var (d, s) := EmitDom(x, cg, scope);
      (d, if op == Plus then s else s + {Emit(x, cg).1.nextReg})
    case Binary(_, l, r) =>
      EmitUsable(l, cg);
      var cg1 := Emit(l, cg).1;
      var (d1, s1) := EmitDom(l, cg, scope);
      var (d2, s2) := EmitDom(r, cg1, s1);
      (d1 + d2, s2 + {Emit(r, cg1).1.nextReg})
    case Cond(c, t, f) =>
      TraceCondShape(e, cg);
      var tr := TraceCond(e, cg);
      var (dc, sc) := EmitDom(c, tr.cg0, scope);
      ([sc, sc, sc] + dc + EmitDom(t, tr.open1, sc).0 + EmitDom(f, tr.open2, sc).0, sc + {tr.open3.nextReg})
    case Call(n, args, id) =>
      if id > 0 && id in cg.cache then ([], scope)
      else if IsMarketFn(n) then ([], scope + {cg.nextReg})
      else
        var (d, s) := EmitArgsDom(SourceArgs(n, args), cg, scope);
        (d, s + {EmitArgs(SourceArgs(n, args), cg).1.nextReg})
  }

  function EmitArgsDom(args: seq<Expr>, cg: CodegenState, scope: set<nat>): (r: (seq<set<nat>>, set<nat>))
    requires RunnableArgs(args) && Usable(cg)
    ensures scope <= r.1
    decreases args, 0
  {
    if args == [] then ([], scope)
    else
      EmitUsable(args[0], cg);
      var (d, s) := EmitDom(args[0], cg, scope);
      var (d', s') := EmitArgsDom(args[1..], Emit(args[0], cg).1, s);
      (d + d', s')
  }

  ghost predicate InScope(cg: CodegenState, dom: seq<set<nat>>, scope: set<nat>, avail: set<int>) {
    && Usable(cg) && Certified(cg.blocks, dom)
    && scope == OutOf(cg.blocks, dom, cg.cur)
    && (forall id <- avail :: id in cg.cache && Uses(cg.cache[id]) <= scope)
  }

  /** Growing blocks and new blocks keep a finished block certified. */
  lemma BlockOkMono(blocks: seq<Block>, dom: seq<set<nat>>, blocks': seq<Block>, dom': seq<set<nat>>, b: nat)
    requires b < |blocks| == |dom| <= |blocks'| == |dom'| && dom <= dom'
    requires blocks'[b] == blocks[b] && BlockOk(blocks, dom, b)
    requires forall i | 0 <= i < |blocks| :: Defs(blocks[i].instrs) <= Defs(blocks'[i].instrs)
    ensures BlockOk(blocks', dom', b)
  {
    forall j | 0 <= j < |blocks'[b].instrs| ensures InstrOk(blocks', dom', b, j) {
      assert InstrOk(blocks, dom, b, j);
    }
  }

  lemma CertAppend(cg: CodegenState, dom: seq<set<nat>>, scope: set<nat>, avail: set<int>, i: Instr)
    requires InScope(cg, dom, scope, avail) && Reads(i) <= scope
    requires i.IPhi? ==> i.thenBlock < |cg.blocks| && Uses(i.thenValue) <= OutOf(cg.blocks, dom, i.thenBlock)
    requires i.IPhi? ==> i.elseBlock < |cg.blocks| && Uses(i.elseValue) <= OutOf(cg.blocks, dom, i.elseBlock)
    ensures InScope(Append(cg, i).1, dom, scope + {cg.nextReg}, avail)
  {
    hide Reads;
    var cg' := Append(cg, i).1;
    var before, after := cg.blocks[cg.cur].instrs, cg'.blocks[cg.cur].instrs;
    DefsAppend(before, (cg.nextReg, i));
    assert forall k | 0 <= k < |cg.blocks| :: Defs(cg.blocks[k].instrs) <= Defs(cg'.blocks[k].instrs);
    forall b | 0 <= b < |cg'.blocks| ensures BlockOk(cg'.blocks, dom, b) {
      assert BlockOk(cg.blocks, dom, b);
      if b != cg.cur {
        BlockOkMono(cg.blocks, dom, cg'.blocks, dom, b);
      } else {
        forall j | 0 <= j < |after| ensures InstrOk(cg'.blocks, dom, b, j) {
          if j < |before| {
            assert InstrOk(cg.blocks, dom, b, j);
            assert after[..j] == before[..j];
          } else {
            assert after[..j] == before;
          }
        }
      }
    }
  }

  lemma CertTerminate(cg: CodegenState, dom: seq<set<nat>>, scope: set<nat>, avail: set<int>, t: Term, next: nat)
    requires InScope(cg, dom, scope, avail)
    requires match t
      case Br(x) => x < |cg.blocks| && dom[x] <= scope
      case CondBr(v, x, y) => Uses(v) <= scope && x < |cg.blocks| && dom[x] <= scope && y < |cg.blocks| &&
          dom[y] <= scope
      case _ => true
    ensures Certified(Terminate(cg, t, next).blocks, dom)
  {
    var blocks := Terminate(cg, t, next).blocks;
    assert forall k | 0 <= k < |cg.blocks| :: blocks[k].instrs == cg.blocks[k].instrs;
    forall b | 0 <= b < |blocks| ensures BlockOk(blocks, dom, b) {
      assert BlockOk(cg.blocks, dom, b);
      if b != cg.cur {
        BlockOkMono(cg.blocks, dom, blocks, dom, b);
      } else {
        forall j | 0 <= j < |blocks[b].instrs| ensures InstrOk(blocks, dom, b, j) {
          assert InstrOk(cg.blocks, dom, b, j);
        }
      }
    }
  }

  lemma CertNewBlocks(cg: CodegenState, dom: seq<set<nat>>, scope: set<nat>, avail: set<int>, sc: set<nat>)
    requires InScope(cg, dom, scope, avail)
    ensures InScope(cg.(blocks := cg.blocks + [EMPTY, EMPTY, EMPTY]), dom + [sc, sc, sc], scope, avail)
  {
    var blocks, dom' := cg.blocks + [EMPTY, EMPTY, EMPTY], dom + [sc, sc, sc];
    forall b | 0 <= b < |blocks| ensures BlockOk(blocks, dom', b) {
      if b < |cg.blocks| {
        assert BlockOk(cg.blocks, dom, b);
        BlockOkMono(cg.blocks, dom, blocks, dom', b);
      }
    }
  }

  /** What emission of one expression certifies. */
  ghost predicate CertPost(cg': CodegenState, dom: seq<set<nat>>, d: (seq<set<nat>>, set<nat>), v: Value,
                           avail': set<int>)
  {
    InScope(cg', dom + d.0, d.1, avail') && Uses(v) <= d.1
  }

  lemma {:induction false} EmitCert(e: Expr, cg: CodegenState, dom: seq<set<nat>>, scope: set<nat>, avail: set<int>,
                                    seen: set<int>)
    requires Runnable(e) && Usable(cg) && SoundlyShared(e, avail, seen) && InScope(cg, dom, scope, avail)
    requires avail <= cg.cache.Keys <= seen
    ensures CertPost(Emit(e, cg).1, dom, EmitDom(e, cg, scope), Emit(e, cg).0, AvailAfter(e, avail))
    decreases e, 1
  {
    hide KindOf, Append, Certified;
    match e
    case Num(_) => assert dom + [] == dom;
    case Param(_, id) => assert dom + [] == dom; CertAppend(cg, dom, scope, avail, IParam(id));
      AppendReg(cg, IParam(id));
    case Unary(op, x) =>
      EmitCert(x, cg, dom, scope, avail, seen);
      var (v, cg1) := Emit(x, cg);
      var (d, s) := EmitDom(x, cg, scope);
      if op == Minus {
        CertAppend(cg1, dom + d, s, AvailAfter(x, avail), INeg(v));
        AppendReg(cg1, INeg(v));
      }
    case Binary(_, _, _) => EmitCertBinary(e, cg, dom, scope, avail, seen);
    case Cond(_, _, _) => EmitCertCond(e, cg, dom, scope, avail, seen);
    case Call(_, _, _) => EmitCertCall(e, cg, dom, scope, avail, seen);
  }

  lemma AppendReg(cg: CodegenState, i: Instr)
    requires cg.cur < |cg.blocks|
    ensures Append(cg, i).0 == Reg(cg.nextReg) && Append(cg, i).1.cache == cg.cache
  {
  }

  lemma BinaryParts(e: Expr, cg: CodegenState, scope: set<nat>)
    requires e.Binary? && Runnable(e) && Usable(cg) && Usable(Emit(e.left, cg).1)
    ensures var (lv, cg1) := Emit(e.left, cg);
      var (rv, cg2) := Emit(e.right, cg1);
      var (d1, s1) := EmitDom(e.left, cg, scope);
      var (d2, s2) := EmitDom(e.right, cg1, s1);
      Emit(e, cg) == Append(cg2, IBin(e.bop, lv, rv)) && EmitDom(e, cg, scope) == (d1 + d2, s2 + {cg2.nextReg})
  {
    hide KindOf, Append;
  }

  lemma {:induction false} EmitCertBinary(e: Expr, cg: CodegenState, dom: seq<set<nat>>, scope: set<nat>,
                                          avail: set<int>, seen: set<int>)
    requires e.Binary? && Runnable(e) && Usable(cg) && SoundlyShared(e, avail, seen) && InScope(cg, dom, scope, avail)
    requires avail <= cg.cache.Keys <= seen
    ensures CertPost(Emit(e, cg).1, dom, EmitDom(e, cg, scope), Emit(e, cg).0, AvailAfter(e, avail))
    decreases e, 0
  {
    EmitUsable(e.left, cg);
    BinaryParts(e, cg, scope);
    hide KindOf, Append, Certified, Emit, EmitDom;
    var l, r := e.left, e.right;
    EmitCert(l, cg, dom, scope, avail, seen);
    EmitKeys(l, cg, avail, seen);
    var (lv, cg1) := Emit(l, cg);
    var (d1, s1) := EmitDom(l, cg, scope);
    var a1 := AvailAfter(l, avail);
    EmitCert(r, cg1, dom + d1, s1, a1, SeenAfter(l, avail, seen));
    var (rv, cg2) := Emit(r, cg1);
    var (d2, s2) := EmitDom(r, cg1, s1);
    assert (dom + d1) + d2 == dom + (d1 + d2);
    CertAppend(cg2, dom + (d1 + d2), s2, AvailAfter(r, a1), IBin(e.bop, lv, rv));
    AppendReg(cg2, IBin(e.bop, lv, rv));
  }

  lemma {:induction false} EmitCertCall(e: Expr, cg: CodegenState, dom: seq<set<nat>>, scope: set<nat>, avail: set<int>,
                                        seen: set<int>)
    requires e.Call? && Runnable(e) && Usable(cg) && SoundlyShared(e, avail, seen) && InScope(cg, dom, scope, avail)
    requires avail <= cg.cache.Keys <= seen
    ensures CertPost(Emit(e, cg).1, dom, EmitDom(e, cg, scope), Emit(e, cg).0, AvailAfter(e, avail))
    decreases e, 0
  {
    hide KindOf, Append, Certified;
    SourceArgsShared(e, avail, seen);
    if e.nodeId > 0 && e.nodeId in cg.cache {
      assert dom + [] == dom;
      assert e.nodeId in avail;
    } else if IsMarketFn(e.name) {
      assert dom + [] == dom;
      StatelessArgsShared(e.args, avail, seen);
      CertAppend(cg, dom, scope, avail, IMarket(e.name, e.args));
      AppendReg(cg, IMarket(e.name, e.args));
    } else {
      EmitCertInputs(e, cg, dom, scope, avail, seen);
    }
  }

  lemma {:induction false} EmitCertInputs(e: Expr, cg: CodegenState, dom: seq<set<nat>>, scope: set<nat>,
                                          avail: set<int>, seen: set<int>)
    requires e.Call? && Runnable(e) && Usable(cg) && SoundlyShared(e, avail, seen) && InScope(cg, dom, scope, avail)
    requires avail <= cg.cache.Keys <= seen && !IsMarketFn(e.name) && !(e.nodeId > 0 && e.nodeId in cg.cache)
    ensures CertPost(Emit(e, cg).1, dom, EmitDom(e, cg, scope), Emit(e, cg).0, AvailAfter(e, avail))
    decreases e, -1
  {
    SourceArgsShared(e, avail, seen);
    var args := SourceArgs(e.name, e.args);
    hide KindOf, Append, Certified, InScope;
    EmitArgsCert(args, cg, dom, scope, avail, seen);
    var (vs, cg1) := EmitArgs(args, cg);
    var (d, s) := EmitArgsDom(args, cg, scope);
    var a1 := AvailAfterArgs(args, avail);
    if IsMathFn(e.name) {
      SingleArg(args);
      SingleEmit(args, cg);
      UsesAllAt(vs, 0);
      CertPure(cg1, dom, d, s, a1, IMath(e.name, vs[0]));
    } else {
      CertStep(cg1, dom, d, s, a1, e, vs);
    }
  }

  lemma CertPure(cg: CodegenState, dom: seq<set<nat>>, d: seq<set<nat>>, s: set<nat>, avail: set<int>, i: Instr)
    requires InScope(cg, dom + d, s, avail) && Reads(i) <= s && !i.IPhi?
    ensures CertPost(Append(cg, i).1, dom, (d, s + {cg.nextReg}), Append(cg, i).0, avail)
  {
    hide Append, Certified;
    CertAppend(cg, dom + d, s, avail, i);
    AppendReg(cg, i);
  }

  lemma CertStep(cg: CodegenState, dom: seq<set<nat>>, d: seq<set<nat>>, s: set<nat>, avail: set<int>, e: Expr,
                 vs: seq<Value>)
    requires e.Call? && InScope(cg, dom + d, s, avail) && UsesAll(vs) <= s
    ensures var (v, cg') := Append(cg, IStep(e, vs));
      CertPost(cg'.(cache := cg'.cache[e.nodeId := v]), dom, (d, s + {cg.nextReg}), v, avail + {e.nodeId})
  {
    hide Append, Certified;
    CertAppend(cg, dom + d, s, avail, IStep(e, vs));
    AppendReg(cg, IStep(e, vs));
  }

  lemma SingleEmit(args: seq<Expr>, cg: CodegenState)
    requires |args| == 1 && RunnableArgs(args) && Runnable(args[0]) && cg.cur < |cg.blocks|
    ensures EmitArgs(args, cg) == ([Emit(args[0], cg).0], Emit(args[0], cg).1)
  {
    hide Emit;
    assert args[1..] == [];
    var (v, cg1) := Emit(args[0], cg);
    assert EmitArgs(args[1..], cg1) == ([], cg1);
    assert [v] + [] == [v];
  }

  lemma UsesAllAt(vs: seq<Value>, i: nat)
    requires i < |vs|
    ensures Uses(vs[i]) <= UsesAll(vs)
  {
  }

  lemma {:induction false} EmitArgsCert(args: seq<Expr>, cg: CodegenState, dom: seq<set<nat>>, scope: set<nat>,
                                        avail: set<int>, seen: set<int>)
    requires RunnableArgs(args) && Usable(cg) && SoundlySharedArgs(args, avail, seen) && InScope(cg, dom, scope, avail)
    requires avail <= cg.cache.Keys <= seen
    ensures var (d, s) := EmitArgsDom(args, cg, scope);
      && InScope(EmitArgs(args, cg).1, dom + d, s, AvailAfterArgs(args, avail))
      && UsesAll(EmitArgs(args, cg).0) <= s
    decreases args, 0
  {
    hide KindOf, Append, Certified, Emit, EmitDom, Runnable, SoundlyShared, AvailAfter, SeenAfter, InScope;
    if args == [] {
      assert dom + [] == dom;
    } else {
      var e := args[0];
      EmitCert(e, cg, dom, scope, avail, seen);
      EmitKeys(e, cg, avail, seen);
      EmitUsable(e, cg);
      var (v, cg1) := Emit(e, cg);
      var (d1, s1) := EmitDom(e, cg, scope);
      EmitArgsCert(args[1..], cg1, dom + d1, s1, AvailAfter(e, avail), SeenAfter(e, avail, seen));
      var (d2, s2) := EmitArgsDom(args[1..], cg1, s1);
      assert (dom + d1) + d2 == dom + (d1 + d2);
      UsesCons(v, EmitArgs(args[1..], cg1).0);
    }
  }

  lemma UsesCons(v: Value, vs: seq<Value>)
    ensures UsesAll([v] + vs) <= Uses(v) + UsesAll(vs)
  {
    forall r | r in UsesAll([v] + vs) ensures r in Uses(v) + UsesAll(vs) {
      var i :| 0 <= i < |[v] + vs| && r in Uses(([v] + vs)[i]);
      if i > 0 { assert r in Uses(vs[i - 1]); }
    }
  }

  lemma {:induction false} EmitCertCond(e: Expr, cg: CodegenState, dom: seq<set<nat>>, scope: set<nat>, avail: set<int>,
                                        seen: set<int>)
    requires e.Cond? && Runnable(e) && Usable(cg) && SoundlyShared(e, avail, seen) && InScope(cg, dom, scope, avail)
    requires avail <= cg.cache.Keys <= seen
    ensures CertPost(Emit(e, cg).1, dom, EmitDom(e, cg, scope), Emit(e, cg).0, AvailAfter(e, avail))
    decreases e, 0
  {
    TraceParts(e, cg);
    TraceCondShape(e, cg);
    CondDom(e, cg, scope);
    assert Emit(e, cg) == Append(TraceCond(e, cg).open3, PhiOf(TraceCond(e, cg)));
    hide KindOf, Append, Certified, Emit, EmitDom, TraceCond, Grew, CacheKept, OutOf, InScope, Uses;
    ScopeFacts(cg, dom, scope, avail);
    var t := TraceCond(e, cg);
    var (dc, sc) := EmitDom(e.cond, t.cg0, scope);
    var (dt, st) := EmitDom(e.thn, t.open1, sc);
    var (de, se) := EmitDom(e.els, t.open2, sc);
    var a1, s1 := AvailAfter(e.cond, avail), SeenAfter(e.cond, avail, seen);
    Prefixes(dom, [sc, sc, sc], dc, dt, de);
    CertNewBlocks(cg, dom, scope, avail, sc);
    EmitCert(e.cond, t.cg0, dom + [sc, sc, sc], scope, avail, seen);
    EmitKeys(e.cond, t.cg0, avail, seen);
    var dom1 := dom + [sc, sc, sc] + dc;
    ScopeFacts(t.cg1, dom1, sc, a1);
    CertBranch(cg, t, dom, dom1, sc, a1);
    EmitCert(e.thn, t.open1, dom1, sc, a1, s1);
    EmitKeys(e.thn, t.open1, a1, s1);
    var dom2 := dom1 + dt;
    ScopeFacts(t.cg2, dom2, st, AvailAfter(e.thn, a1));
    CertElse(cg, t, dom, dom2, sc, st, a1, AvailAfter(e.thn, a1));
    EmitCert(e.els, t.open2, dom2, sc, a1, SeenAfter(e.thn, a1, s1));
    var dom3 := dom2 + de;
    CertMerge(cg, t, dom, dom2, dom3, sc, st, se, a1, AvailAfter(e.els, a1));
    ScopeFacts(t.open2, dom2, sc, a1);
    AppendReg(t.open3, PhiOf(t));
  }

  lemma Prefixes<T>(a: seq<T>, b: seq<T>, c: seq<T>, d: seq<T>, e: seq<T>)
    ensures a + b <= a + b + c <= a + b + c + d <= a + b + c + d + e == a + (b + c + d + e)
    ensures a + b <= a + b + c + d && a + b <= a + b + c + d + e
  {
  }

  lemma ScopeFacts(cg: CodegenState, dom: seq<set<nat>>, scope: set<nat>, avail: set<int>)
    requires InScope(cg, dom, scope, avail)
    ensures |dom| == |cg.blocks| && cg.cur < |cg.blocks| && scope == OutOf(cg.blocks, dom, cg.cur)
    ensures forall id <- avail :: id in cg.cache && Uses(cg.cache[id]) <= scope
  {
  }

  lemma CondDom(e: Expr, cg: CodegenState, scope: set<nat>)
    requires e.Cond? && Runnable(e) && Usable(cg)
    requires var t := TraceCond(e, cg); Usable(t.cg0) && Usable(t.open1) && Usable(t.open2)
    ensures var t := TraceCond(e, cg);
      var (dc, sc) := EmitDom(e.cond, t.cg0, scope);
      var (dt, st) := EmitDom(e.thn, t.open1, sc);
      var (de, se) := EmitDom(e.els, t.open2, sc);
      EmitDom(e, cg, scope) == ([sc, sc, sc] + dc + dt + de, sc + {t.open3.nextReg})
  {
    hide KindOf, Append, Emit;
  }

  /** The condition's block branches to two blocks in which everything in scope there is still in scope. */
  lemma CertBranch(cg: CodegenState, t: CondTrace, dom: seq<set<nat>>, dom1: seq<set<nat>>, sc: set<nat>, a1: set<int>)
    requires CondShape(cg, t) && |dom| == |cg.blocks| && InScope(t.cg1, dom1, sc, a1) && Uses(t.cv) <= sc
    requires dom + [sc, sc, sc] <= dom1
    ensures InScope(t.open1, dom1, sc, a1)
  {
    hide Grew, Certified;
    var k := |cg.blocks|;
    assert dom1[k] == (dom + [sc, sc, sc])[k] && dom1[k + 1] == (dom + [sc, sc, sc])[k + 1];
    CertLen(t.cg1, dom1, sc, a1);
    GrewLen(t.cg0, t.cg1);
    CertTerminate(t.cg1, dom1, sc, a1, CondBr(t.cv, k, k + 1), k);
    assert Usable(t.open1) by { GrewFacts(t.open1, t.cg2); }
  }

  lemma CertLen(cg: CodegenState, dom: seq<set<nat>>, scope: set<nat>, avail: set<int>)
    requires InScope(cg, dom, scope, avail)
    ensures |dom| == |cg.blocks|
  {
  }

  lemma GrewLen(a: CodegenState, b: CodegenState)
    requires Grew(a, b)
    ensures |a.blocks| <= |b.blocks|
  {
  }

  lemma CertElse(cg: CodegenState, t: CondTrace, dom: seq<set<nat>>, dom2: seq<set<nat>>, sc: set<nat>, st: set<nat>,
                 a1: set<int>, at: set<int>)
    requires CondShape(cg, t) && |dom| == |cg.blocks| && InScope(t.cg2, dom2, st, at) && a1 <= at
    requires dom + [sc, sc, sc] <= dom2 && sc <= st
    requires forall id <- a1 :: id in t.cg1.cache && Uses(t.cg1.cache[id]) <= sc
    ensures InScope(t.open2, dom2, sc, a1)
  {
    hide Grew, Certified;
    var k := |cg.blocks|;
    assert dom2[k + 1] == (dom + [sc, sc, sc])[k + 1] && dom2[k + 2] == (dom + [sc, sc, sc])[k + 2];
    CertLen(t.cg2, dom2, st, at);
    GrewLen(t.cg0, t.cg1); GrewLen(t.open1, t.cg2);
    CertTerminate(t.cg2, dom2, st, at, Br(k + 2), k + 1);
    GrewFacts(t.open2, t.cg3);
    GrewFacts(t.open1, t.cg2);
  }

  lemma CertMerge(cg: CodegenState, t: CondTrace, dom: seq<set<nat>>, dom2: seq<set<nat>>, dom3: seq<set<nat>>,
                  sc: set<nat>, st: set<nat>, se: set<nat>, a1: set<int>, ae: set<int>)
    requires CondShape(cg, t) && |dom| == |cg.blocks| && InScope(t.cg3, dom3, se, ae) && a1 <= ae
    requires |dom2| == |t.cg2.blocks| && dom2 <= dom3 && dom + [sc, sc, sc] <= dom3 && sc <= st && sc <= se
    requires st == OutOf(t.cg2.blocks, dom2, t.cg2.cur) && Uses(t.tv) <= st && Uses(t.ev) <= se
    requires forall id <- a1 :: id in t.open2.cache && Uses(t.open2.cache[id]) <= sc
    ensures InScope(Append(t.open3, PhiOf(t)).1, dom3, sc + {t.open3.nextReg}, a1)
  {
    hide Certified, Append;
    var k := |cg.blocks|;
    assert dom3[k + 2] == (dom + [sc, sc, sc])[k + 2];
    CertLen(t.cg3, dom3, se, ae);
    CertTerminate(t.cg3, dom3, se, ae, Br(k + 2), k + 2);
    assert t.open2.blocks[t.cg2.cur].instrs == t.cg2.blocks[t.cg2.cur].instrs;
    assert t.cg2.cur != t.open2.cur;
    assert t.cg3.blocks[t.cg2.cur] == t.open2.blocks[t.cg2.cur];
    assert dom3[t.cg2.cur] == dom2[t.cg2.cur];
    assert OutOf(t.open3.blocks, dom3, t.cg2.cur) == st;
    assert OutOf(t.open3.blocks, dom3, t.cg3.cur) == se;
    assert InScope(t.open3, dom3, sc, a1);
    CertAppend(t.open3, dom3, sc, a1, PhiOf(t));
  }

  /** The signals of a program, one after another, in one function. */
  lemma {:induction false} SignalsCert(bodies: seq<Expr>, index: nat, cg: CodegenState, dom: seq<set<nat>>,
                                       scope: set<nat>, seen: set<int>)
      returns (dom': seq<set<nat>>)
    requires RunnableArgs(bodies) && ProgramShared(bodies, seen) && InScope(cg, dom, scope, {}) && cg.cache.Keys <= seen
    ensures Certified(EmitSignals(bodies, index, cg).blocks, dom') && dom <= dom'
    decreases bodies
  {
    hide KindOf, Append, Certified, Emit, EmitDom;
    if bodies == [] {
      CertTerminate(cg, dom, scope, {}, Ret, cg.cur);
      dom' := dom;
    } else {
      EmitCert(bodies[0], cg, dom, scope, {}, seen);
      EmitKeys(bodies[0], cg, {}, seen);
      var (v, cg1) := Emit(bodies[0], cg);
      var (d, s) := EmitDom(bodies[0], cg, scope);
      CertAppend(cg1, dom + d, s, {}, IStore(index, v));
      AppendReg(cg1, IStore(index, v));
      dom' := SignalsCert(bodies[1..], index + 1, Append(cg1, IStore(index, v)).1, dom + d, s + {cg1.nextReg},
                          SeenAfter(bodies[0], {}, seen));
    }
  }

  /** There is a branch from block `a` to block `b`. */
  predicate Edge(p: seq<Block>, a: nat, b: nat) {
    a < |p| && match p[a].term
      case Br(t) => t == b
      case CondBr(_, t, f) => t == b || f == b
      case _ => false
  }

  /** A path of the control-flow graph from the entry; branch conditions are ignored. */
  predicate Path(p: seq<Block>, path: seq<nat>) {
    && |path| > 0 && path[0] == 0 && |p| > 0
    && (forall k | 0 <= k < |path| - 1 :: Edge(p, path[k], path[k + 1]))
  }

  ghost predicate DefinedOn(p: seq<Block>, path: seq<nat>, r: nat) {
    exists k :: 0 <= k < |path| && path[k] < |p| && r in Defs(p[path[k]].instrs)
  }

  ghost predicate AllDefinedOn(p: seq<Block>, path: seq<nat>, rs: set<nat>) {
    forall r <- rs :: DefinedOn(p, path, r)
  }

  lemma PathPrefix(p: seq<Block>, path: seq<nat>)
    requires Path(p, path) && |path| > 1
    ensures Path(p, path[..|path| - 1])
    ensures Edge(p, path[|path| - 2], path[|path| - 1])
  {
    var before := path[..|path| - 1];
    forall k | 0 <= k < |before| - 1 ensures Edge(p, before[k], before[k + 1]) {
      assert Edge(p, path[k], path[k + 1]);
    }
    assert Edge(p, path[|path| - 2], path[|path| - 2 + 1]);
  }

  lemma {:induction false} DomHolds(p: seq<Block>, dom: seq<set<nat>>, path: seq<nat>)
    requires Certified(p, dom) && |p| > 0 && dom[0] == {} && Path(p, path)
    ensures path[|path| - 1] < |p|
    ensures AllDefinedOn(p, path[..|path| - 1], dom[path[|path| - 1]])
    decreases |path|
  {
    if |path| > 1 {
      var n := |path| - 1;
      var before := path[..n];
      PathPrefix(p, path);
      DomHolds(p, dom, before);
      var a, b := path[n - 1], path[n];
      assert BlockOk(p, dom, a);
      forall r | r in dom[b] ensures DefinedOn(p, before, r) {
        if r in Defs(p[a].instrs) {
          assert before[n - 1] == a;
        } else {
          assert before[..n - 1] == before[..|before| - 1];
          assert DefinedOn(p, before[..n - 1], r);
          var k :| 0 <= k < n - 1 && before[..n - 1][k] < |p| && r in Defs(p[before[..n - 1][k]].instrs);
          assert before[k] == before[..n - 1][k];
        }
      }
    }
  }

  /** Registers defined before position `j` of the last block of a path, along that path. */
  ghost predicate Available(p: seq<Block>, path: seq<nat>, j: nat, r: nat)
    requires |path| > 0 && path[|path| - 1] < |p| && j <= |p[path[|path| - 1]].instrs|
  {
    DefinedOn(p, path[..|path| - 1], r) || r in Defs(p[path[|path| - 1]].instrs[..j])
  }

  /** SSA validity of every compiled program: along every path from the entry, whichever way each branch
      goes, every register an instruction reads, and every register a phi takes from the predecessor the
      path came through, has been defined before. */
  lemma DefinitionsDominateUses(bodies: seq<Expr>, path: seq<nat>, j: nat)
    requires WellFormedArgs(bodies)
    ensures RunnableArgs(AllocateProgram(bodies, 1).0)
    ensures var p := CompileProgram(AllocateProgram(bodies, 1).0);
      Path(p, path) ==>
        var b := path[|path| - 1];
        && b < |p|
        && (j < |p[b].instrs| ==>
              && (forall r <- Reads(p[b].instrs[j].1) :: Available(p, path, j, r))
              && (p[b].instrs[j].1.IPhi? && |path| > 1 && path[|path| - 2] == p[b].instrs[j].1.thenBlock ==>
                    forall r <- Uses(p[b].instrs[j].1.thenValue) :: DefinedOn(p, path[..|path| - 1], r))
              && (p[b].instrs[j].1.IPhi? && |path| > 1 && path[|path| - 2] == p[b].instrs[j].1.elseBlock ==>
                    forall r <- Uses(p[b].instrs[j].1.elseValue) :: DefinedOn(p, path[..|path| - 1], r)))
        && (p[b].term.CondBr? ==> forall r <- Uses(p[b].term.cond) :: Available(p, path, |p[b].instrs|, r))
  {
    hide KindOf, Emit, EmitSignals, Walk, AllocateProgram;
    AllocateProgramSound(bodies, 1, {});
    var withIds := AllocateProgram(bodies, 1).0;
    var p := CompileProgram(withIds);
    assert InScope(START, [{}], {}, {}) by { assert BlockOk([EMPTY], [{}], 0); }
    var dom := SignalsCert(withIds, 0, START, [{}], {}, {});
    if Path(p, path) {
      assert dom[0] == {};
      DomHolds(p, dom, path);
      var n := |path| - 1;
      var b := path[n];
      assert BlockOk(p, dom, b);
      assert p[b].instrs[..|p[b].instrs|] == p[b].instrs;
      if j < |p[b].instrs| {
        assert InstrOk(p, dom, b, j);
        if |path| > 1 {
          PathPrefix(p, path);
          PathEndDefines(p, dom, path[..n]);
          assert path[..n][n - 1] == path[n - 1];
        }
      }
    }
  }

  lemma PathEndDefines(p: seq<Block>, dom: seq<set<nat>>, path: seq<nat>)
    requires Certified(p, dom) && |p| > 0 && dom[0] == {} && Path(p, path)
    ensures path[|path| - 1] < |p|
    ensures AllDefinedOn(p, path, OutOf(p, dom, path[|path| - 1]))
  {
    DomHolds(p, dom, path);
    var n := |path| - 1;
    forall r | r in OutOf(p, dom, path[n]) ensures DefinedOn(p, path, r) {
      if r in dom[path[n]] {
        var k :| 0 <= k < n && path[..n][k] < |p| && r in Defs(p[path[..n][k]].instrs);
        assert path[k] == path[..n][k];
      }
    }
  }
}
