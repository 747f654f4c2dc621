/** The built-in functions by name: what the passes that tell them apart by their names agree on. */
module Builtins {
  import opened Ast
  import opened Evaluation

  const NAMES: set<string> := MARKET + MATH + STATEFUL
  const MARKET: set<string> := {"mid", "bid", "ask", "spread"}
  const MATH: set<string> := {"abs", "log", "sqrt"}
  const STATEFUL: set<string> :=
    {"ema", "ema_alpha", "sma", "rolling_std", "zscore", "rolling_min", "rolling_max", "vwap", "lag", "cross_above",
     "cross_below", "rolling_corr", "rolling_beta", "kalman1d"}

  /** The name that stands for a kind. */
  function NameOf(k: FnKind): string {
    match k
    case Mid => "mid" case Bid => "bid" case Ask => "ask" case Spread => "spread"
    case Abs => "abs" case Log => "log" case Sqrt => "sqrt"
    case Ema => "ema" case EmaAlpha => "ema_alpha" case Sma => "sma" case RollingStd => "rolling_std"
    case Zscore => "zscore" case RollingMin => "rolling_min" case RollingMax => "rolling_max" case Vwap => "vwap"
    case Lag => "lag" case CrossAbove => "cross_above" case CrossBelow => "cross_below"
    case RollingCorr => "rolling_corr" case RollingBeta => "rolling_beta" case Kalman1d => "kalman1d"
    case Unknown => ""
  }

  /** Names and kinds are one to one, and every other name is unknown. */
  lemma NamesAreKinds(n: string, k: FnKind)
    ensures k != Unknown ==> KindOf(NameOf(k)) == k
    ensures KindOf(n) == Unknown <==> n !in NAMES
    ensures n in NAMES ==> NameOf(KindOf(n)) == n
  {
    NamesToKinds(n);
    KindsToNames(k);
  }

  lemma KindsToNames(k: FnKind)
    ensures k != Unknown ==> KindOf(NameOf(k)) == k
  {
  }

  lemma NamesToKinds(n: string)
    ensures KindOf(n) == Unknown <==> n !in NAMES
    ensures n in NAMES ==> NameOf(KindOf(n)) == n
  {
    Named(n);
    if n in NAMES { Listed(n); }
    hide KindOf;
  }

  lemma Named(n: string)
    ensures KindOf(n) != Unknown ==> NameOf(KindOf(n)) == n
    ensures KindOf(n) != Unknown ==> n in NAMES
  {
    NameIsListed(KindOf(n));
  }

  lemma NameIsListed(k: FnKind)
    ensures k != Unknown ==> NameOf(k) in NAMES
  {
  }

  lemma Listed(n: string)
    requires n in NAMES
    ensures KindOf(n) != Unknown
  {
  }

  /** Who reads a quote, who takes a ticker first, who keeps a slot, and how many arguments each takes. */
  lemma ClassesByName(n: string)
    ensures IsMarketFn(n) <==> n in MARKET
    ensures IsTickerFn(n) <==> n in MARKET || n == "vwap"
    ensures IsMathFn(n) <==> n in MATH
    ensures IsStatefulOp(n) <==> n in STATEFUL
    ensures n in MARKET || n in MATH ==> Arity(n) == 1
    ensures n in STATEFUL ==> Arity(n) == if n in {"rolling_corr", "rolling_beta", "kalman1d"} then 3 else 2
    ensures n in STATEFUL ==>
      (HasPeriod(n) <==> n !in {"ema_alpha", "cross_above", "cross_below", "kalman1d"})
    ensures n in STATEFUL ==> PeriodIndex(n) == if n in {"rolling_corr", "rolling_beta"} then 2 else 1
  {
    NamesAreKinds(n, KindOf(n));
  }
}
