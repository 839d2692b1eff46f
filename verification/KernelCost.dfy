/** What crates/erl/src/limiter.rs charges for a kernel launch. */
module KernelCosts {
  import opened RealMath

  datatype KernelLimiterConfig = KernelLimiterConfig(minCost: real, maxCost: real, curveScale: real)

  /** What the cost curve needs of the exponential function: on non-positive arguments it is monotone, with values in
      (0, 1]. */
  ghost predicate IsDecay(f: real -> real) {
    && (forall x: real :: x <= 0.0 ==> 0.0 < f(x) <= 1.0)
    && (forall x: real, y: real :: x <= y <= 0.0 ==> f(x) <= f(y))
  }

  type Decay = f: real -> real | IsDecay(f) witness _ => 1.0

  type U32 = n: nat | n < 0x1_0000_0000

  /** `f64::EPSILON`, 2 to the power of -52. */
  const EPSILON := 1.0 / 4503599627370496.0

  function AtLeastOne(n: U32): U32 { if n < 1 then 1 else n }

  function TotalThreads(grids: U32, blocks: U32): (total: real)
    ensures total >= 1.0
  {
    Monotone(1.0, AtLeastOne(grids) as real, 1.0);
    Monotone(1.0, AtLeastOne(blocks) as real, AtLeastOne(grids) as real);
    Unit(AtLeastOne(grids) as real);
    Times(AtLeastOne(grids) as real, AtLeastOne(blocks) as real)
  }

  function Curve(exp: Decay, total: real, scale: real): real
    requires scale != 0.0
  {
    1.0 - exp(-Over(total, scale))
  }

  function EstimateKernelCost(cfg: KernelLimiterConfig, exp: Decay, grids: U32, blocks: U32): real {
    var scale := Max(cfg.curveScale, EPSILON);
    var span := Max(cfg.maxCost - cfg.minCost, 0.0);
    Max(cfg.minCost + Times(Curve(exp, TotalThreads(grids, blocks), scale), span), cfg.minCost)
  }

  lemma Scaled(a: real, b: real, scale: real)
    requires 0.0 <= a <= b && 0.0 < scale
    ensures 0.0 <= Over(a, scale) <= Over(b, scale)
  {
    SignOfQuotient(a, scale);
    Quotient(a, scale);
    Quotient(b, scale);
    var x, y := Over(a, scale), Over(b, scale);
    Distributes(x, y, scale);
    if y < x {
      Positive(x - y, scale);
    }
  }

  /** A launch costs at least the minimum and, if the maximum is no less than that, at most the maximum. */
  lemma CostInRange(cfg: KernelLimiterConfig, exp: Decay, grids: U32, blocks: U32)
    ensures cfg.minCost <= EstimateKernelCost(cfg, exp, grids, blocks) <= Max(cfg.minCost, cfg.maxCost)
  {
    var scale, span := Max(cfg.curveScale, EPSILON), Max(cfg.maxCost - cfg.minCost, 0.0);
    var total := TotalThreads(grids, blocks);
    Scaled(0.0, total, scale);
    Monotone(Curve(exp, total, scale), 1.0, span);
    NonNegative(Curve(exp, total, scale), span);
    Unit(span);
  }

  /** More threads never cost less. */
  lemma CostGrows(cfg: KernelLimiterConfig, exp: Decay, grids: U32, blocks: U32, grids': U32, blocks': U32)
    requires grids <= grids' && blocks <= blocks'
    ensures EstimateKernelCost(cfg, exp, grids, blocks) <= EstimateKernelCost(cfg, exp, grids', blocks')
  {
    var scale, span := Max(cfg.curveScale, EPSILON), Max(cfg.maxCost - cfg.minCost, 0.0);
    var g, b := AtLeastOne(grids) as real, AtLeastOne(blocks) as real;
    var g', b' := AtLeastOne(grids') as real, AtLeastOne(blocks') as real;
    Monotone(g, g', b);
    Monotone(b, b', g');
    Scaled(0.0, TotalThreads(grids, blocks), scale);
    Scaled(TotalThreads(grids, blocks), TotalThreads(grids', blocks'), scale);
    Monotone(Curve(exp, TotalThreads(grids, blocks), scale), Curve(exp, TotalThreads(grids', blocks'), scale), span);
  }

  /** The threads of a launch as the cost sees them. */
  function Threads(grids: U32, blocks: U32): (n: nat)
    ensures n >= 1
  {
    var g, b := AtLeastOne(grids), AtLeastOne(blocks);
    ProductAtLeastOne(g, b);
    g * b
  }

  lemma ProductAtLeastOne(a: int, b: int)
    requires a >= 1 && b >= 1
    ensures a * b >= 1
  {
  }

  lemma TotalIsThreads(grids: U32, blocks: U32)
    ensures TotalThreads(grids, blocks) == Threads(grids, blocks) as real
  {
  }

  ghost predicate Strict(exp: Decay) {
    forall x: real, y: real :: x < y <= 0.0 ==> exp(x) < exp(y)
  }

  ghost predicate Multiplicative(exp: Decay) {
    forall x: real, y: real {:trigger Times(exp(x), exp(y))} ::
      x <= 0.0 && y <= 0.0 ==> exp(x + y) == Times(exp(x), exp(y))
  }

  /** How far the cost is from the maximum. */
  function Remainder(cfg: KernelLimiterConfig, exp: Decay, grids: U32, blocks: U32): real {
    cfg.maxCost - EstimateKernelCost(cfg, exp, grids, blocks)
  }

  /** `n` threads are `k` times the scale of the curve. */
  predicate Scales(cfg: KernelLimiterConfig, n: nat, k: real) {
    Times(k, Max(cfg.curveScale, EPSILON)) == n as real
  }

  /** A launch of `k` times the scale leaves `exp(-k)` of the span between minimum and maximum. */
  lemma RemainderDecays(cfg: KernelLimiterConfig, exp: Decay, grids: U32, blocks: U32, k: real)
    requires cfg.minCost <= cfg.maxCost && Scales(cfg, Threads(grids, blocks), k)
    ensures k >= 0.0 && Remainder(cfg, exp, grids, blocks) == Times(exp(-k), cfg.maxCost - cfg.minCost)
  {
    var scale, span := Max(cfg.curveScale, EPSILON), cfg.maxCost - cfg.minCost;
    var total := TotalThreads(grids, blocks);
    TotalIsThreads(grids, blocks);
    Cancel(k, scale, total);
    Scaled(0.0, total, scale);
    Distributes(1.0, exp(-k), span);
    Unit(span);
    NonNegative(1.0 - exp(-k), span);
  }

  lemma ScaleOf(cfg: KernelLimiterConfig, n: nat) returns (k: real)
    ensures Scales(cfg, n, k)
  {
    k := Over(n as real, Max(cfg.curveScale, EPSILON));
    Quotient(n as real, Max(cfg.curveScale, EPSILON));
  }

  lemma ScalesAdd(cfg: KernelLimiterConfig, n: nat, n': nat, k: real, k': real)
    requires Scales(cfg, n, k) && Scales(cfg, n', k')
    ensures Scales(cfg, n + n', k + k')
  {
    Distributes(k, k', Max(cfg.curveScale, EPSILON));
  }

  lemma ThreadsAdd(grids: U32, grids': U32, blocks: U32)
    requires 1 <= grids && 1 <= grids' && grids + grids' < 0x1_0000_0000
    ensures Threads(grids + grids', blocks) == Threads(grids, blocks) + Threads(grids', blocks)
  {
    ProductDistributes(grids, grids', AtLeastOne(blocks));
  }

  lemma ProductDistributes(a: int, b: int, c: int)
    ensures (a + b) * c == a * c + b * c
  {
  }

  lemma SharesMultiply(span: real, x: real, y: real, whole: real, a: real, b: real)
    requires a == Times(x, span) && b == Times(y, span) && whole == Times(Times(x, y), span)
    ensures Times(whole, span) == Times(a, b)
  {
    Associates(x, y, span);
    Commutes(y, span);
    Associates(x, span, y);
    Associates(Times(x, span), y, span);
  }

  /** So what two launches of the same blocks leave, multiplied, is what one of all their grids leaves, times the span;
      as long as the exponential function turns sums into products. */
  lemma RemaindersMultiply(cfg: KernelLimiterConfig, exp: Decay, grids: U32, grids': U32, blocks: U32)
    requires cfg.minCost <= cfg.maxCost && Multiplicative(exp)
    requires 1 <= grids && 1 <= grids' && grids + grids' < 0x1_0000_0000
    ensures Times(Remainder(cfg, exp, grids + grids', blocks), cfg.maxCost - cfg.minCost) ==
            Times(Remainder(cfg, exp, grids, blocks), Remainder(cfg, exp, grids', blocks))
  {
    var x, y, whole, a, b := Shares(cfg, exp, grids, grids', blocks);
    SharesMultiply(cfg.maxCost - cfg.minCost, x, y, whole, a, b);
  }

  /** What is left after either launch and after both, and the shares of the span it is. */
  lemma Shares(cfg: KernelLimiterConfig, exp: Decay, grids: U32, grids': U32, blocks: U32)
    returns (x: real, y: real, whole: real, a: real, b: real)
    requires cfg.minCost <= cfg.maxCost && Multiplicative(exp)
    requires 1 <= grids && 1 <= grids' && grids + grids' < 0x1_0000_0000
    ensures whole == Remainder(cfg, exp, grids + grids', blocks) == Times(Times(x, y), cfg.maxCost - cfg.minCost)
    ensures a == Remainder(cfg, exp, grids, blocks) == Times(x, cfg.maxCost - cfg.minCost)
    ensures b == Remainder(cfg, exp, grids', blocks) == Times(y, cfg.maxCost - cfg.minCost)
  {
    var k := ScaleOf(cfg, Threads(grids, blocks));
    var k' := ScaleOf(cfg, Threads(grids', blocks));
    ScalesAdd(cfg, Threads(grids, blocks), Threads(grids', blocks), k, k');
    ThreadsAdd(grids, grids', blocks);
    RemainderDecays(cfg, exp, grids, blocks, k);
    RemainderDecays(cfg, exp, grids', blocks, k');
    RemainderDecays(cfg, exp, grids + grids', blocks, k + k');
    ExpOfSum(exp, k, k');
    x, y, whole := exp(-k), exp(-k'), Remainder(cfg, exp, grids + grids', blocks);
    a, b := Remainder(cfg, exp, grids, blocks), Remainder(cfg, exp, grids', blocks);
  }

  lemma ExpOfSum(exp: Decay, k: real, k': real)
    requires Multiplicative(exp) && k >= 0.0 && k' >= 0.0
    ensures exp(-(k + k')) == Times(exp(-k), exp(-k'))
  {
    assert -(k + k') == -k + -k';
  }

  /** Only the number of threads counts, and more of them never cost less. If the exponential function is strict and
      the maximum above the minimum, every thread more costs more. */
  lemma {:induction false} ThreadsDecide(cfg: KernelLimiterConfig, exp: Decay,
                                         grids: U32, blocks: U32, grids': U32, blocks': U32)
    requires Threads(grids, blocks) <= Threads(grids', blocks')
    ensures var cost, cost' := EstimateKernelCost(cfg, exp, grids, blocks),
                               EstimateKernelCost(cfg, exp, grids', blocks');
            && cost <= cost'
            && (Threads(grids, blocks) == Threads(grids', blocks') ==> cost == cost')
            && (Strict(exp) && cfg.minCost < cfg.maxCost ==>
                  (cost < cost' <==> Threads(grids, blocks) < Threads(grids', blocks')))
  {
    var scale, span := Max(cfg.curveScale, EPSILON), Max(cfg.maxCost - cfg.minCost, 0.0);
    var total, total' := TotalThreads(grids, blocks), TotalThreads(grids', blocks');
    TotalIsThreads(grids, blocks);
    TotalIsThreads(grids', blocks');
    Scaled(0.0, total, scale);
    Scaled(total, total', scale);
    var curve, curve' := Curve(exp, total, scale), Curve(exp, total', scale);
    Monotone(curve, curve', span);
    NonNegative(curve, span);
    if total < total' && Strict(exp) && cfg.minCost < cfg.maxCost {
      Quotient(total, scale);
      Quotient(total', scale);
      assert Over(total, scale) < Over(total', scale);
      Positive(curve' - curve, span);
      Distributes(curve', curve, span);
    }
  }

  /** Grids and blocks count alike, and one block of all threads costs the same. */
  lemma CostOfProduct(cfg: KernelLimiterConfig, exp: Decay, grids: U32, blocks: U32)
    ensures EstimateKernelCost(cfg, exp, grids, blocks) == EstimateKernelCost(cfg, exp, blocks, grids)
    ensures Threads(grids, blocks) < 0x1_0000_0000 ==>
              EstimateKernelCost(cfg, exp, grids, blocks) == EstimateKernelCost(cfg, exp, Threads(grids, blocks), 1)
  {
    ProductCommutes(AtLeastOne(grids), AtLeastOne(blocks));
    ThreadsDecide(cfg, exp, grids, blocks, blocks, grids);
    if Threads(grids, blocks) < 0x1_0000_0000 {
      ThreadsDecide(cfg, exp, grids, blocks, Threads(grids, blocks), 1);
    }
  }

  lemma ProductCommutes(a: int, b: int)
    ensures a * b == b * a
  {
  }

  /** With a strict exponential function the minimum is charged exactly if there is nothing above it. */
  lemma MinimumIffFlat(cfg: KernelLimiterConfig, exp: Decay, grids: U32, blocks: U32)
    requires Strict(exp)
    ensures EstimateKernelCost(cfg, exp, grids, blocks) == cfg.minCost <==> cfg.maxCost <= cfg.minCost
  {
    var scale, span := Max(cfg.curveScale, EPSILON), Max(cfg.maxCost - cfg.minCost, 0.0);
    var total := TotalThreads(grids, blocks);
    Scaled(0.0, total, scale);
    Quotient(total, scale);
    var k := Over(total, scale);
    assert k > 0.0 by {
      Unit(scale);
    }
    assert exp(-k) < exp(0.0) <= 1.0;
    if span > 0.0 {
      Positive(Curve(exp, total, scale), span);
    } else {
      Unit(Curve(exp, total, scale));
    }
  }
}
