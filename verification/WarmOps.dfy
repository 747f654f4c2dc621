/** The lowered sma, ema and lag operators, with and without their warm-up guards, over any arithmetic: the
    two variants do the same operations in the same order, so nothing is assumed of addition or rounding. */
module WarmOps {
  import opened Ast
  import opened Evaluation
  import opened NodeIds
  import opened CodegenCorrect
  import opened Program
  import opened Warm
  import opened WarmRun

  datatype Arith<!V> = Arith(
    add: (V, V) -> V, sub: (V, V) -> V, mul: (V, V) -> V, div: (V, V) -> V,
    zero: V, nan: V, ofInt: int -> V, emaAlpha: int -> V, emaKeep: int -> V)

  datatype SmaState<V> = SmaState(buf: seq<V>, sum: V, head: nat, count: nat)
  datatype LagState<V> = LagState(buf: seq<V>, head: nat, count: nat)
  datatype EmaState<V> = EmaState(value: V, init: bool)

  /** A slot holds the state of one operator; `Other` stands for every operator that is not lowered here. */
  datatype OpState<V, T> = OfSma(sma: SmaState<V>) | OfLag(lag: LagState<V>) | OfEma(ema: EmaState<V>) | Other(t: T)

  function SmaGuarded<V>(ar: Arith<V>, period: nat, x: V, s: SmaState<V>): (V, SmaState<V>)
    requires period > 0 && s.head < |s.buf|
  {
    var wasFull := s.count == period;
    var old_ := if wasFull then s.buf[s.head] else ar.zero;
    var sum := ar.sub(ar.add(s.sum, x), old_);
    var count := if wasFull then s.count else s.count + 1;
    (if count == period then ar.div(sum, ar.ofInt(period)) else ar.nan,
     SmaState(s.buf[s.head := x], sum, (s.head + 1) % period, count))
  }

  function SmaUnguarded<V>(ar: Arith<V>, period: nat, x: V, s: SmaState<V>): (V, SmaState<V>)
    requires period > 0 && s.head < |s.buf|
  {
    var sum := ar.sub(ar.add(s.sum, x), s.buf[s.head]);
    (ar.div(sum, ar.ofInt(period)), SmaState(s.buf[s.head := x], sum, (s.head + 1) % period, s.count))
  }

  function LagGuarded<V>(ar: Arith<V>, period: nat, x: V, s: LagState<V>): (V, LagState<V>)
    requires period > 0 && s.head < |s.buf|
  {
    var full := s.count == period;
    (if full then s.buf[s.head] else ar.nan,
     LagState(s.buf[s.head := x], (s.head + 1) % period, if full then s.count else s.count + 1))
  }

  function LagUnguarded<V>(ar: Arith<V>, period: nat, x: V, s: LagState<V>): (V, LagState<V>)
    requires period > 0 && s.head < |s.buf|
  {
    (s.buf[s.head], LagState(s.buf[s.head := x], (s.head + 1) % period, s.count))
  }

  function EmaGuarded<V>(ar: Arith<V>, period: int, x: V, s: EmaState<V>): (V, EmaState<V>) {
    var blended := ar.add(ar.mul(ar.emaAlpha(period), x), ar.mul(ar.emaKeep(period), s.value));
    var v := if s.init then blended else x;
    (v, EmaState(v, true))
  }

  function EmaUnguarded<V>(ar: Arith<V>, period: int, x: V, s: EmaState<V>): (V, EmaState<V>) {
    var blended := ar.add(ar.mul(ar.emaAlpha(period), x), ar.mul(ar.emaKeep(period), s.value));
    (blended, EmaState(blended, s.init))
  }

  /** The emitted code in its own form: loads from and stores to the fields of one slot. */
  class SmaSlot<V> {
    const buf: array<V>
    var sum: V
    var head: nat
    var count: nat

    ghost function State(): SmaState<V>
      reads this, buf
    {
      SmaState(buf[..], sum, head, count)
    }

    constructor (ar: Arith<V>, period: nat)
      requires period > 0
      ensures fresh(buf) && State() == SmaState(seq(period, _ => ar.zero), ar.zero, 0, 0)
    {
      buf := new V[period](_ => ar.zero);
      sum, head, count := ar.zero, 0, 0;
      new;
      assert buf[..] == seq(period, _ => ar.zero);
    }

    method Push(ar: Arith<V>, period: nat, warm: bool, x: V) returns (out: V)
      requires period > 0 && head < buf.Length
      modifies this, buf
      ensures (out, State()) == if warm then SmaUnguarded(ar, period, x, old(State()))
              else SmaGuarded(ar, period, x, old(State()))
    {
      var old_ := buf[head];
      if warm {
        sum := ar.sub(ar.add(sum, x), old_);
        buf[head] := x;
        head := (head + 1) % period;
        return ar.div(sum, ar.ofInt(period));
      }
      var wasFull := count == period;
      sum := ar.sub(ar.add(sum, x), if wasFull then old_ else ar.zero);
      count := if wasFull then count else count + 1;
      buf[head] := x;
      head := (head + 1) % period;
      out := if count == period then ar.div(sum, ar.ofInt(period)) else ar.nan;
    }
  }

  class LagSlot<V> {
    const buf: array<V>
    var head: nat
    var count: nat

    ghost function State(): LagState<V>
      reads this, buf
    {
      LagState(buf[..], head, count)
    }

    constructor (ar: Arith<V>, period: nat)
      requires period > 0
      ensures fresh(buf) && State() == LagState(seq(period, _ => ar.zero), 0, 0)
    {
      buf := new V[period](_ => ar.zero);
      head, count := 0, 0;
      new;
      assert buf[..] == seq(period, _ => ar.zero);
    }

    method Push(ar: Arith<V>, period: nat, warm: bool, x: V) returns (out: V)
      requires period > 0 && head < buf.Length
      modifies this, buf
      ensures (out, State()) == if warm then LagUnguarded(ar, period, x, old(State()))
              else LagGuarded(ar, period, x, old(State()))
    {
      out := buf[head];
      buf[head] := x;
      head := (head + 1) % period;
      if !warm {
        var full := count == period;
        out := if full then out else ar.nan;
        count := if full then count else count + 1;
      }
    }
  }

  class EmaSlot<V> {
    var value: V
    var initialized: bool

    ghost function State(): EmaState<V>
      reads this
    {
      EmaState(value, initialized)
    }

    constructor (ar: Arith<V>)
      ensures State() == EmaState(ar.zero, false)
    {
      value, initialized := ar.zero, false;
    }

    method Push(ar: Arith<V>, period: int, warm: bool, x: V) returns (out: V)
      modifies this
      ensures (out, State()) == if warm then EmaUnguarded(ar, period, x, old(State()))
              else EmaGuarded(ar, period, x, old(State()))
    {
      var blended := ar.add(ar.mul(ar.emaAlpha(period), x), ar.mul(ar.emaKeep(period), value));
      if warm {
        value := blended;
      } else {
        value := if initialized then blended else x;
        initialized := true;
      }
      out := value;
    }
  }

  /** Calls the code generator accepts: a literal period that truncates to a positive integer. */
  predicate Accepted(k: Expr, intOf: Bits64 -> int) {
    k.Call? && |k.args| == 2 && k.args[1].Num? && intOf(k.args[1].bits) > 0
  }

  function Period(k: Expr, intOf: Bits64 -> int): (p: nat)
    ensures p > 0
  {
    if Accepted(k, intOf) then intOf(k.args[1].bits) else 1
  }

  function First<V>(ar: Arith<V>, vs: seq<V>): V {
    if vs == [] then ar.zero else vs[0]
  }

  function InitOf<M, V, T>(base: Ops<M, V, T>, ar: Arith<V>, intOf: Bits64 -> int, k: Expr): OpState<V, T> {
    var p := Period(k, intOf);
    if !k.Call? then Other(base.init(k))
    else if KindOf(k.name).Sma? then OfSma(SmaState(seq(p, _ => ar.zero), ar.zero, 0, 0))
    else if KindOf(k.name).Lag? then OfLag(LagState(seq(p, _ => ar.zero), 0, 0))
    else if KindOf(k.name).Ema? then OfEma(EmaState(ar.zero, false))
    else Other(base.init(k))
  }

  /** One update of a slot; `warm` picks the variant without guards where there is one. */
  function Update<M, V, T>(base: Ops<M, V, T>, ar: Arith<V>, intOf: Bits64 -> int, warm: bool, k: Expr, vs: seq<V>,
                           s: OpState<V, T>)
      : (V, OpState<V, T>)
  {
    var p, x, w := Period(k, intOf), First(ar, vs), warm && Accepted(k, intOf);
    match s
    case OfSma(a) =>
      if a.head >= |a.buf| then (ar.nan, s)
      else
        var (v, a') := if w then SmaUnguarded(ar, p, x, a) else SmaGuarded(ar, p, x, a);
        (v, OfSma(a'))
    case OfLag(a) =>
      if a.head >= |a.buf| then (ar.nan, s)
      else
        var (v, a') := if w then LagUnguarded(ar, p, x, a) else LagGuarded(ar, p, x, a);
        (v, OfLag(a'))
    case OfEma(a) =>
      var (v, a') := if w then EmaUnguarded(ar, p, x, a) else EmaGuarded(ar, p, x, a);
      (v, OfEma(a'))
    case Other(t) =>
      var (v, t') := base.step(k, vs, t);
      (v, Other(t'))
  }

  /** The operators of a program whose sma, ema and lag are lowered and whose others are `base`'s. */
  ghost function LoweredOps<M, V, T>(base: Ops<M, V, T>, ar: Arith<V>, intOf: Bits64 -> int): Ops<M, V, OpState<V, T>> {
    Ops(base.num, base.neg, base.bin, base.isTrue, base.market, base.math,
        k => InitOf(base, ar, intOf, k),
        (k, vs, s) => Update(base, ar, intOf, false, k, vs, s),
        (k, vs, s) => Update(base, ar, intOf, true, k, vs, s))
  }

  function Least(a: nat, b: nat): nat {
    if a < b then a else b
  }

  /** The state of call `k` after at least `n` updates: full, or with `n` samples. */
  ghost predicate Ripe<V, T>(intOf: Bits64 -> int, k: Expr, s: OpState<V, T>, n: nat) {
    var p := Period(k, intOf);
    k.Call? &&
    if KindOf(k.name).Sma? then s.OfSma? && |s.sma.buf| == p && s.sma.head < p && Least(n, p) <= s.sma.count <= p
    else if KindOf(k.name).Lag? then s.OfLag? && |s.lag.buf| == p && s.lag.head < p && Least(n, p) <= s.lag.count <= p
    else KindOf(k.name).Ema? && s.OfEma? && (n > 0 ==> s.ema.init)
  }

  ghost function RipeFor<V, T>(intOf: Bits64 -> int): (Expr, OpState<V, T>, nat) -> bool {
    (k: Expr, s: OpState<V, T>, n: nat) => Ripe(intOf, k, s, n)
  }

  lemma RipeSteps<M, V, T>(base: Ops<M, V, T>, ar: Arith<V>, intOf: Bits64 -> int, k: Expr, vs: seq<V>,
                           s: OpState<V, T>, n: nat)
    requires Ripe(intOf, k, s, n)
    ensures Ripe(intOf, k, Update(base, ar, intOf, false, k, vs, s).1, n + 1)
  {
  }

  lemma RipeSame<M, V, T>(base: Ops<M, V, T>, ar: Arith<V>, intOf: Bits64 -> int, k: Expr, vs: seq<V>, s: OpState<V, T>,
                          n: nat)
    requires Ripe(intOf, k, s, n) && n >= OwnTicks(k, intOf)
    ensures Update(base, ar, intOf, true, k, vs, s) == Update(base, ar, intOf, false, k, vs, s)
  {
  }

  /** The lowered operators obey the laws of warm variants. */
  lemma LoweredLaws<M, V(!new), T(!new)>(base: Ops<M, V, T>, ar: Arith<V>, intOf: Bits64 -> int)
    ensures WarmLaws(LoweredOps(base, ar, intOf), RipeFor(intOf), k => OwnTicks(k, intOf))
  {
    var ops := LoweredOps(base, ar, intOf);
    forall k: Expr, vs: seq<V>, s: OpState<V, T>, n: nat | Warmed(k) && Ripe(intOf, k, s, n)
      ensures Ripe(intOf, k, ops.step(k, vs, s).1, n + 1)
      ensures n >= OwnTicks(k, intOf) ==> ops.warm(k, vs, s) == ops.step(k, vs, s)
    {
      RipeSteps(base, ar, intOf, k, vs, s, n);
      if n >= OwnTicks(k, intOf) { RipeSame(base, ar, intOf, k, vs, s, n); }
    }
    hide OwnTicks, Update;
  }

  /** The promise of the tiered compiler, for the lowered operators themselves. */
  lemma LoweredProgramSpecialises<M, V(!new), T(!new)>(base: Ops<M, V, T>, ar: Arith<V>, params: int -> V,
                                                       intOf: Bits64 -> int, bodies: seq<Expr>, before: seq<M>,
                                                       after: seq<M>)
    requires WellFormedArgs(bodies)
    requires |before| >= ComputeProgramWarmupThreshold(AllocateProgram(bodies, 1).0, intOf)
    ensures RunnableArgs(AllocateProgram(bodies, 1).0)
    ensures var withIds, ops := AllocateProgram(bodies, 1).0, LoweredOps(base, ar, intOf);
      var warmed := RunTicks(ops, params, {}, withIds, map[], before).1;
      RunTicks(ops, params, CollectAll(withIds), withIds, warmed, after) ==
          RunTicks(ops, params, {}, withIds, warmed, after)
  {
    LoweredLaws(base, ar, intOf);
    hide LoweredOps, WarmLaws, OwnTicks, Ripe;
    SpecialisedAfterThreshold(LoweredOps(base, ar, intOf), params, RipeFor(intOf), intOf, bodies, before, after);
  }

  lemma {:induction false} RunTicksAppend<M, V, S>(ops: Ops<M, V, S>, params: int -> V, ids: set<int>,
                                                   bodies: seq<Expr>, slots: map<int, S>, a: seq<M>, b: seq<M>)
    requires RunnableArgs(bodies)
    ensures var (outs, slots1) := RunTicks(ops, params, ids, bodies, slots, a);
      var (outs', slots2) := RunTicks(ops, params, ids, bodies, slots1, b);
      RunTicks(ops, params, ids, bodies, slots, a + b) == (outs + outs', slots2)
    decreases |a|
  {
    hide EvalProgram;
    if a == [] {
      assert a + b == b;
      var outs := RunTicks(ops, params, ids, bodies, slots, b).0;
      assert [] + outs == outs;
    } else {
      assert (a + b)[1..] == a[1..] + b && (a + b)[0] == a[0];
      var (vs, slots1, _) := EvalProgram(Env(ops, a[0], params, ids, false), bodies, slots, multiset{});
      RunTicksAppend(ops, params, ids, bodies, slots1, a[1..], b);
      var (rest, slots2) := RunTicks(ops, params, ids, bodies, slots1, a[1..]);
      var outs' := RunTicks(ops, params, ids, bodies, slots2, b).0;
      assert [vs] + (rest + outs') == ([vs] + rest) + outs';
    }
  }

  lemma RunOneTick<M, V, S>(ops: Ops<M, V, S>, params: int -> V, ids: set<int>, bodies: seq<Expr>, slots: map<int, S>,
                            m: M)
    requires RunnableArgs(bodies)
    ensures var (vs, slots', _) := EvalProgram(Env(ops, m, params, ids, false), bodies, slots, multiset{});
      RunTicks(ops, params, ids, bodies, slots, [m]) == ([vs], slots')
  {
    hide EvalProgram;
    var (vs, slots', _) := EvalProgram(Env(ops, m, params, ids, false), bodies, slots, multiset{});
    assert [m][1..] == [] && [vs] + [] == [vs];
    assert RunTicks(ops, params, ids, bodies, slots', []) == ([], slots');
  }

  lemma RunNoTicks<M, V, S>(ops: Ops<M, V, S>, params: int -> V, bodies: seq<Expr>)
    requires RunnableArgs(bodies)
    ensures RunTicks(ops, params, {}, bodies, map[], []) == ([], map[])
  {
  }

  /** The two-tier wrapper: a baseline program at first, the specialised one once promoted. */
  class TieredProgram {
    const bodies: seq<Expr>
    const warmupThreshold: int
    var active: set<int>
    var promoted: bool

    constructor Compile(bodies: seq<Expr>, intOf: Bits64 -> int)
      ensures this.bodies == bodies && warmupThreshold == ComputeProgramWarmupThreshold(bodies, intOf)
      ensures active == {} && !promoted
    {
      this.bodies := bodies;
      this.warmupThreshold := ComputeProgramWarmupThreshold(bodies, intOf);
      this.active := {};
      this.promoted := false;
    }

    method Promote()
      modifies this
      ensures promoted && active == if old(promoted) then old(active) else CollectAll(bodies)
    {
      if !promoted {
        active := CollectAll(bodies);
        promoted := true;
      }
    }
  }

  /** The loop callers are told to write: run the current tier, and promote when the threshold is reached.
      `tiers` lists what was compiled without guards at each tick: nothing up to the threshold, everything collected
      from then on, unless the threshold is 0.  The switch cannot be seen in any output, on any input. */
  method RunTiered<M, V(!new), S(!new)>(ops: Ops<M, V, S>, params: int -> V, ghost ripe: (Expr, S, nat) -> bool,
                                        intOf: Bits64 -> int, ghost bodies: seq<Expr>, withIds: seq<Expr>, ms: seq<M>)
      returns (outputs: seq<seq<V>>, slots: map<int, S>, tiers: seq<set<int>>)
    requires WellFormedArgs(bodies) && withIds == AllocateProgram(bodies, 1).0
    requires WarmLaws(ops, ripe, k => OwnTicks(k, intOf))
    ensures RunnableArgs(withIds)
    ensures |tiers| == |ms|
    ensures forall i :: 0 <= i < |ms| ==>
      tiers[i] == if 0 < ComputeProgramWarmupThreshold(withIds, intOf) <= i then CollectAll(withIds) else {}
    ensures (outputs, slots) == RunTicks(ops, params, {}, withIds, map[], ms)
  {
    AllocateProgramSound(bodies, 1, {});
    hide AllocateProgram, EvalProgram, WarmLaws, OwnTicks, RunTicks, ComputeProgramWarmupThreshold, CollectAll;
    RunNoTicks(ops, params, withIds);
    var program := new TieredProgram.Compile(withIds, intOf);
    outputs, slots, tiers := [], map[], [];
    assert ms[..0] == [];
    for i := 0 to |ms|
      invariant (outputs, slots) == RunTicks(ops, params, {}, withIds, map[], ms[..i])
      invariant program.bodies == withIds && program.warmupThreshold == ComputeProgramWarmupThreshold(withIds, intOf)
      invariant program.promoted == (0 < program.warmupThreshold <= i)
      invariant program.active == if program.promoted then CollectAll(withIds) else {}
      invariant |tiers| == i
      invariant forall j :: 0 <= j < i ==>
        tiers[j] == if 0 < program.warmupThreshold <= j then CollectAll(withIds) else {}
    {
      var (vs, next, _) := EvalProgram(Env(ops, ms[i], params, program.active, false), withIds, slots, multiset{});
      ghost var one := [ms[i]];
      assert ms[..i + 1] == ms[..i] + one;
      RunOneTick(ops, params, program.active, withIds, slots, ms[i]);
      RunTicksAppend(ops, params, {}, withIds, map[], ms[..i], one);
      if program.promoted {
        SpecialisedAfterThreshold(ops, params, ripe, intOf, bodies, ms[..i], one);
      }
      outputs, slots, tiers := outputs + [vs], next, tiers + [program.active];
      if i + 1 == program.warmupThreshold {
        program.Promote();
      }
    }
    assert ms[..|ms|] == ms;
  }
}
