/** The target language: basic blocks in SSA form with branches and phis, and its execution. */
module Ir {
  import opened Ast
  import opened Evaluation

  datatype Value = ConstV(bits: Bits64) | Reg(r: nat)

  /** One instruction; each defines the register it is listed with, except a store, whose number stays unused. */
  datatype Instr =
    | IParam(id: int)
    | INeg(x: Value)
    | IBin(op: BinaryOpKind, l: Value, r: Value)
    | IMath(name: string, x: Value)
    | IMarket(name: string, args: seq<Expr>)
    | IStep(call: Expr, inputs: seq<Value>)
    | IPhi(thenValue: Value, thenBlock: nat, elseValue: Value, elseBlock: nat)
    | IStore(index: nat, x: Value)

  datatype Term = Open | Br(target: nat) | CondBr(cond: Value, onTrue: nat, onFalse: nat) | Ret

  datatype Block = Block(instrs: seq<(nat, Instr)>, term: Term)

  datatype Config<V, S> = Config(
    block: nat, pos: nat, prev: nat, regs: map<nat, V>,
    slots: map<int, S>, log: multiset<int>, outs: map<nat, V>)

  datatype Outcome<V, S> = Running(c: Config<V, S>) | Done(c: Config<V, S>) | Stuck

  predicate Defined<V>(regs: map<nat, V>, v: Value) {
    v.Reg? ==> v.r in regs
  }

  predicate AllDefined<V>(regs: map<nat, V>, vs: seq<Value>) {
    forall i | 0 <= i < |vs| :: Defined(regs, vs[i])
  }

  function ValueOf<M, V, S>(env: Env<M, V, S>, regs: map<nat, V>, v: Value): V
    requires Defined(regs, v)
  {
    match v
    case ConstV(b) => env.ops.num(b)
    case Reg(r) => regs[r]
  }

  function ValuesOf<M, V, S>(env: Env<M, V, S>, regs: map<nat, V>, vs: seq<Value>): (r: seq<V>)
    requires AllDefined(regs, vs)
    ensures |r| == |vs|
    ensures forall i | 0 <= i < |vs| :: r[i] == ValueOf(env, regs, vs[i])
  {
    if vs == [] then []
    else
      assert forall i | 0 <= i < |vs[1..]| :: vs[1..][i] == vs[i + 1];
      [ValueOf(env, regs, vs[0])] + ValuesOf(env, regs, vs[1..])
  }

  function Define<V, S>(c: Config<V, S>, r: nat, v: V): Outcome<V, S> {
    Running(c.(regs := c.regs[r := v], pos := c.pos + 1))
  }

  /** Execute one instruction; reading a register that was not defined is stuck. */
  function Exec<M, V, S>(env: Env<M, V, S>, c: Config<V, S>, r: nat, i: Instr): Outcome<V, S> {
    match i
    case IParam(id) => Define(c, r, env.params(id))
    case INeg(x) => if Defined(c.regs, x) then Define(c, r, env.ops.neg(ValueOf(env, c.regs, x))) else Stuck
    case IBin(op, x, y) =>
      if Defined(c.regs, x) && Defined(c.regs, y)
      then Define(c, r, env.ops.bin(op, ValueOf(env, c.regs, x), ValueOf(env, c.regs, y))) else Stuck
    case IMath(n, x) => if Defined(c.regs, x) then Define(c, r, env.ops.math(n, ValueOf(env, c.regs, x))) else Stuck
    case IMarket(n, args) =>
      var m := MarketInput(env, n, args);
      if |m| == 1 then Define(c, r, m[0]) else Stuck
    case IStep(call, inputs) =>
      if call.Call? && AllDefined(c.regs, inputs) then
        var (v, s) := StepAt(env, call, MarketInput(env, call.name, call.args) + ValuesOf(env, c.regs, inputs),
                             SlotOf(env, c.slots, call));
        Define(c.(slots := c.slots[call.nodeId := s], log := c.log + multiset{call.nodeId}), r, v)
      else Stuck
    case IPhi(tv, tb, ev, eb) =>
      if c.prev == tb && Defined(c.regs, tv) then Define(c, r, ValueOf(env, c.regs, tv))
      else if c.prev != tb && c.prev == eb && Defined(c.regs, ev) then Define(c, r, ValueOf(env, c.regs, ev))
      else Stuck
    case IStore(k, x) =>
      if Defined(c.regs, x) then
        var v := ValueOf(env, c.regs, x);
        Running(c.(outs := c.outs[k := v], pos := c.pos + 1))
      else Stuck
  }

  function Jump<V, S>(c: Config<V, S>, target: nat): Outcome<V, S> {
    Running(c.(block := target, pos := 0, prev := c.block))
  }

  function Step<M, V, S>(env: Env<M, V, S>, p: seq<Block>, c: Config<V, S>): Outcome<V, S> {
    if c.block >= |p| then Stuck
    else
      var b := p[c.block];
      if c.pos < |b.instrs| then Exec(env, c, b.instrs[c.pos].0, b.instrs[c.pos].1)
      else match b.term
        case Open => Stuck
        case Br(t) => Jump(c, t)
        case CondBr(v, t, f) =>
          if Defined(c.regs, v) then Jump(c, if env.ops.isTrue(ValueOf(env, c.regs, v)) then t else f) else Stuck
        case Ret => Done(c)
  }

  function Run<M, V, S>(env: Env<M, V, S>, p: seq<Block>, n: nat, c: Config<V, S>): Outcome<V, S>
    decreases n
  {
    if n == 0 then Running(c)
    else match Step(env, p, c)
      case Running(c1) => Run(env, p, n - 1, c1)
      case Done(c1) => Done(c1)
      case Stuck => Stuck
  }

  lemma {:induction false} RunCompose<M, V, S>(env: Env<M, V, S>, p: seq<Block>, n: nat, m: nat, c: Config<V, S>,
                                               c1: Config<V, S>)
    requires Run(env, p, n, c) == Running(c1)
    ensures Run(env, p, n + m, c) == Run(env, p, m, c1)
    decreases n
  {
    hide Step;
    if n > 0 {
      RunCompose(env, p, n - 1, m, Step(env, p, c).c, c1);
    }
  }
}
