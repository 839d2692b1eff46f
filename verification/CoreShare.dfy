/** crates/hypervisor/src/core/pod/coordinator.rs: the V1 feedback that moves a pod's share of CUDA cores.

    Every 32-bit operation of the source is modelled: one that overflows panics in a debug build and wraps in a release
    build; a division by zero, or of the least number by -1, panics in both. None stands for a panic. */
module CoreShare {
  import opened Wrappers

  const I32_MIN: int := -0x8000_0000
  const I32_MAX: int := 0x7FFF_FFFF

  datatype Build = Debug | Release

  type U32 = x: nat | x < 0x1_0000_0000

  datatype Device = Device(upLimit: U32, totalCores: U32, smCount: U32, maxThreadPerSm: U32)

  predicate Fits(x: int) {
    I32_MIN <= x <= I32_MAX
  }

  /** The number that two's complement arithmetic on 32 bits has instead of `x`. */
  function Wrapped(x: int): (r: int)
    ensures Fits(r) && (r - x) % 0x1_0000_0000 == 0
    ensures Fits(x) ==> r == x
  {
    (x + 0x8000_0000) % 0x1_0000_0000 - 0x8000_0000
  }

  function I32(build: Build, x: int): Option<int> {
    if Fits(x) then Some(x) else if build.Release? then Some(Wrapped(x)) else None
  }

  /** Division that truncates towards zero. */
  function Div(x: int, y: int): Option<int> {
    if y == 0 then None
    else
      var q := Magnitude(x) / Magnitude(y);
      var r := if (x < 0) == (y < 0) then q else -q;
      if Fits(r) then Some(r) else None
  }

  function Magnitude(x: int): nat {
    if x < 0 then -x else x
  }

  /** `as i32` on a `u32`. */
  function AsI32(x: U32): int {
    if x <= I32_MAX then x else x - 0x1_0000_0000
  }

  function Abs(build: Build, x: int): Option<int> {
    I32(build, Magnitude(x))
  }

  function Increment(build: Build, device: Device, diff: int): Option<int> {
    var upLimit := AsI32(device.upLimit);
    var squared :- I32(build, AsI32(device.smCount) * AsI32(device.smCount));
    var threads :- I32(build, squared * AsI32(device.maxThreadPerSm));
    var base :- Div(threads, 256);
    var scaled :- I32(build, base * diff);
    var increment :- Div(scaled, 10);
    var half :- Div(upLimit, 2);
    if diff > half then Amplified(build, increment, diff, upLimit) else Some(increment)
  }

  /** The additional scaling when the difference is large. */
  function Amplified(build: Build, increment: int, diff: int, upLimit: int): Option<int> {
    var byDiff :- I32(build, increment * diff);
    var twice :- I32(build, byDiff * 2);
    var next :- I32(build, upLimit + 1);
    Div(twice, next)
  }

  function Delta(build: Build, device: Device, userCurrent: U32, share: int): Option<int> {
    var upLimit, total := AsI32(device.upLimit), AsI32(device.totalCores);
    var gap :- I32(build, upLimit - AsI32(userCurrent));
    var distance :- Abs(build, gap);
    var diff := if distance < 5 then 5 else distance;
    var increment :- Increment(build, device, diff);
    Moved(build, userCurrent <= device.upLimit, total, share, increment)
  }

  /** The share after one adjustment: towards the total when the utilization is within the limit, else towards 0. */
  function Moved(build: Build, up: bool, total: int, share: int, increment: int): Option<int> {
    if up then
      var raised :- I32(build, share + increment);
      Some(if raised > total then total else raised)
    else
      var lowered :- I32(build, share - increment);
      Some(if lowered < 0 then 0 else lowered)
  }

  // The same arithmetic over the integers, for devices within the documented bounds.

  predicate WithinBounds(device: Device) {
    && device.smCount <= 256 && device.maxThreadPerSm <= 2048 && device.upLimit <= 100
    && device.totalCores <= device.smCount * device.maxThreadPerSm * 64
  }

  /** What one SM-square of threads contributes, before the distance is taken into account. */
  function Base(device: Device): nat {
    device.smCount * device.smCount * device.maxThreadPerSm / 256
  }

  function PlainIncrement(device: Device, diff: nat): nat {
    Base(device) * diff / 10
  }

  function ExactIncrement(device: Device, diff: nat): nat {
    if diff > device.upLimit / 2 then PlainIncrement(device, diff) * diff * 2 / (device.upLimit + 1)
    else PlainIncrement(device, diff)
  }

  function Distance(device: Device, userCurrent: U32): (diff: nat)
    ensures 5 <= diff
  {
    var d := if userCurrent <= device.upLimit then device.upLimit - userCurrent else userCurrent - device.upLimit;
    if d < 5 then 5 else d
  }

  function ExactDelta(device: Device, userCurrent: U32, share: int): int {
    var increment := ExactIncrement(device, Distance(device, userCurrent));
    ExactMoved(userCurrent <= device.upLimit, device.totalCores, share, increment)
  }

  function ExactMoved(up: bool, total: int, share: int, increment: int): int {
    if up then
      if share + increment > total then total else share + increment
    else
      if share - increment < 0 then 0 else share - increment
  }

  lemma {:induction false} MulMono(a: nat, b: nat, c: nat, d: nat)
    requires a <= c && b <= d
    ensures a * b <= c * d
  {
    assert a * b <= c * b;
    assert c * b <= c * d;
  }

  lemma BaseBound(device: Device)
    requires WithinBounds(device)
    ensures device.smCount * device.smCount <= 0x1_0000
    ensures device.smCount * device.smCount * device.maxThreadPerSm <= 0x800_0000
    ensures Base(device) <= 0x8_0000
    ensures device.totalCores <= 0x200_0000
  {
    MulMono(device.smCount, device.smCount, 256, 256);
    MulMono(device.smCount * device.smCount, device.maxThreadPerSm, 0x1_0000, 2048);
    MulMono(device.smCount, device.maxThreadPerSm, 256, 2048);
  }

  /** Beyond half the limit, scaling multiplies the increment by at least one. */
  lemma {:induction false} ScalingNeverLowers(device: Device, diff: nat)
    ensures ExactIncrement(device, diff) >= PlainIncrement(device, diff)
  {
    if diff > device.upLimit / 2 {
      var p, n := PlainIncrement(device, diff), device.upLimit + 1;
      assert diff * 2 >= n;
      MulMono(p, n, p, diff * 2);
      assert p * diff * 2 == p * (diff * 2);
      DivAtLeast(p * (diff * 2), n, p);
    }
  }

  lemma DivBelow(x: nat, n: nat, q: nat)
    requires n > 0 && x / n < q
    ensures x < q * n
  {
    MulMono(x / n + 1, n, q, n);
  }

  lemma DivAtLeast(x: nat, n: nat, q: nat)
    requires n > 0 && q * n <= x
    ensures q <= x / n
  {
    if x / n < q {
      DivBelow(x, n, q);
    }
  }

  lemma DivAtMost(x: nat, n: nat)
    requires n > 0
    ensures x / n <= x
  {
    MulMono(x / n, 1, x / n, n);
    assert x == x / n * n + x % n;
  }

  lemma DivBrackets(x: nat, n: nat)
    requires n > 0
    ensures n * (x / n) <= x < n * (x / n) + n
  {
  }

  /** The rounding of the increment: it falls short of `sm_count^2 * max_thread_per_sm * diff / 2560` by less than
      `1 + diff / 10`; and, scaled, of the plain one times `2 * diff / (up_limit + 1)` by less than 1. */
  lemma {:induction false} IncrementAccuracy(device: Device, diff: nat)
    ensures var threads := device.smCount * device.smCount * device.maxThreadPerSm;
            var plain, n := PlainIncrement(device, diff), device.upLimit + 1;
            && 2560 * plain <= threads * diff < 2560 * plain + 2560 + 256 * diff
            && (if diff <= device.upLimit / 2 then ExactIncrement(device, diff) == plain
                else n * ExactIncrement(device, diff) <= plain * diff * 2 < n * ExactIncrement(device, diff) + n)
  {
    var threads, base := device.smCount * device.smCount * device.maxThreadPerSm, Base(device);
    DivBrackets(threads, 256);
    MulMono(256 * base, diff, threads, diff);
    MulMono(threads, diff, 256 * base + 255, diff);
    Regroup(base, diff);
    DivBrackets(base * diff, 10);
    DivBrackets(PlainIncrement(device, diff) * diff * 2, device.upLimit + 1);
  }

  lemma Regroup(base: nat, diff: nat)
    ensures 256 * base * diff == 256 * (base * diff)
    ensures (256 * base + 255) * diff == 256 * (base * diff) + 255 * diff
  {
  }

  lemma IncrementBound(device: Device, diff: nat)
    requires WithinBounds(device) && diff <= 100
    ensures Base(device) * diff <= 0x320_0000
    ensures PlainIncrement(device, diff) <= 0x50_0000
    ensures ExactIncrement(device, diff) <= 0x3E80_0000
  {
    BaseBound(device);
    MulMono(Base(device), diff, 0x8_0000, 100);
    MulMono(PlainIncrement(device, diff), diff, 0x50_0000, 100);
    DivAtMost(PlainIncrement(device, diff) * diff * 2, device.upLimit + 1);
  }

  lemma AmplifiedNeverOverflows(build: Build, increment: nat, diff: nat, upLimit: nat)
    requires increment <= 0x50_0000 && diff <= 100 && upLimit <= 100
    ensures Amplified(build, increment, diff, upLimit) == Some(increment * diff * 2 / (upLimit + 1))
  {
    MulMono(increment, diff, 0x50_0000, 100);
    var x := increment * diff * 2;
    DivAtMost(x, upLimit + 1);
    assert I32(build, x) == Some(x);
    assert Div(x, upLimit + 1) == Some(x / (upLimit + 1));
  }

  lemma BaseNeverOverflows(build: Build, device: Device)
    requires WithinBounds(device)
    ensures I32(build, AsI32(device.smCount) * AsI32(device.smCount)) == Some(device.smCount * device.smCount)
    ensures I32(build, device.smCount * device.smCount * AsI32(device.maxThreadPerSm)) ==
            Some(device.smCount * device.smCount * device.maxThreadPerSm)
    ensures Div(device.smCount * device.smCount * device.maxThreadPerSm, 256) == Some(Base(device))
  {
    BaseBound(device);
  }

  lemma TenthNeverOverflows(build: Build, base: nat, diff: nat)
    requires base * diff <= 0x320_0000
    ensures I32(build, base * diff) == Some(base * diff) && Div(base * diff, 10) == Some(base * diff / 10)
  {
  }

  /** Within the bounds no 32-bit operation overflows, so in both builds the increment is the one over the integers. */
  lemma {:induction false} IncrementNeverOverflows(build: Build, device: Device, diff: nat)
    requires WithinBounds(device) && diff <= 100
    ensures Increment(build, device, diff) == Some(ExactIncrement(device, diff))
  {
    IncrementBound(device, diff);
    BaseNeverOverflows(build, device);
    TenthNeverOverflows(build, Base(device), diff);
    AmplifiedNeverOverflows(build, PlainIncrement(device, diff), diff, device.upLimit);
  }

  lemma MovedNeverOverflows(build: Build, up: bool, total: nat, share: int, increment: nat)
    requires 0 <= share <= total <= 0x200_0000 && increment <= 0x3E80_0000
    ensures Moved(build, up, total, share, increment) == Some(ExactMoved(up, total, share, increment))
    ensures 0 <= ExactMoved(up, total, share, increment) <= total
  {
  }

  lemma DistanceNeverOverflows(build: Build, device: Device, userCurrent: U32)
    requires device.upLimit <= 100 && userCurrent <= 100
    ensures Distance(device, userCurrent) <= 100
    ensures var gap := AsI32(device.upLimit) - AsI32(userCurrent);
            I32(build, gap) == Some(gap) && Abs(build, gap).Some? &&
            Distance(device, userCurrent) == if Abs(build, gap).value < 5 then 5 else Abs(build, gap).value
  {
  }

  /** Nor does the new share, which stays between 0 and the total. */
  lemma {:induction false} DeltaNeverOverflows(build: Build, device: Device, userCurrent: U32, share: int)
    requires WithinBounds(device) && userCurrent <= 100 && 0 <= share <= device.totalCores
    ensures Delta(build, device, userCurrent, share) == Some(ExactDelta(device, userCurrent, share))
    ensures 0 <= ExactDelta(device, userCurrent, share) <= device.totalCores
  {
    var diff := Distance(device, userCurrent);
    DistanceNeverOverflows(build, device, userCurrent);
    assert ExactIncrement(device, diff) <= 0x3E80_0000 by { IncrementBound(device, diff); }
    assert device.totalCores <= 0x200_0000 by { BaseBound(device); }
    IncrementNeverOverflows(build, device, diff);
    MovedNeverOverflows(build, userCurrent <= device.upLimit, device.totalCores, share, ExactIncrement(device, diff));
    DeltaMoves(build, device, userCurrent, share, diff, ExactIncrement(device, diff));
  }

  lemma DeltaMoves(build: Build, device: Device, userCurrent: U32, share: int, diff: nat, increment: int)
    requires device.upLimit <= 100 && userCurrent <= 100 && device.totalCores <= 0x200_0000
    requires diff == Distance(device, userCurrent) && Increment(build, device, diff) == Some(increment)
    ensures Delta(build, device, userCurrent, share) ==
            Moved(build, userCurrent <= device.upLimit, device.totalCores, share, increment)
  {
    DistanceNeverOverflows(build, device, userCurrent);
  }

  // Outside the bounds.

  /** The inputs whose casts to `i32` change nothing, with a share in its range. */
  predicate Castable(device: Device, userCurrent: U32, share: int) {
    && device.upLimit <= I32_MAX && device.totalCores <= I32_MAX && device.smCount <= I32_MAX
    && device.maxThreadPerSm <= I32_MAX && userCurrent <= I32_MAX && 0 <= share <= device.totalCores
  }

  /** The conditions from the base on. */
  predicate ScalingFits(device: Device, diff: nat) {
    && Base(device) * diff <= I32_MAX
    && (diff > device.upLimit / 2 ==> PlainIncrement(device, diff) * diff * 2 <= I32_MAX && device.upLimit < I32_MAX)
  }

  /** Every product and sum on the way to the increment stays below 2 to the power of 31. */
  predicate IncrementFits(device: Device, diff: nat) {
    && device.smCount * device.smCount <= I32_MAX
    && device.smCount * device.smCount * device.maxThreadPerSm <= I32_MAX
    && ScalingFits(device, diff)
  }

  /** And so does the raised share. */
  predicate DeltaFits(device: Device, userCurrent: U32, share: int) {
    var diff := Distance(device, userCurrent);
    && IncrementFits(device, diff)
    && (userCurrent <= device.upLimit ==> share + ExactIncrement(device, diff) <= I32_MAX)
  }

  lemma QuotientIs(x: nat, n: nat)
    requires 0 < n
    ensures Div(x, n) == if x / n <= I32_MAX then Some(x / n) else None
  {
  }

  /** The scaling step, from the product it doubles. */
  lemma AmplifiedFits(increment: nat, diff: nat, upLimit: nat, product: nat)
    requires increment <= I32_MAX && upLimit <= I32_MAX && product == increment * diff
    ensures product * 2 > I32_MAX || upLimit == I32_MAX ==> Amplified(Debug, increment, diff, upLimit) == None
    ensures product * 2 <= I32_MAX && upLimit < I32_MAX ==>
              product * 2 / (upLimit + 1) <= I32_MAX &&
              Amplified(Debug, increment, diff, upLimit) == Some(product * 2 / (upLimit + 1))
  {
    assert I32(Debug, increment * diff) == if product <= I32_MAX then Some(product) else None;
    assert product <= I32_MAX ==> I32(Debug, product * 2) == if product * 2 <= I32_MAX then Some(product * 2) else None;
    if product * 2 <= I32_MAX && upLimit < I32_MAX {
      DivAtMost(product * 2, upLimit + 1);
      QuotientIs(product * 2, upLimit + 1);
    }
  }

  lemma SquareOverflows(device: Device, diff: nat)
    requires device.smCount <= I32_MAX && device.smCount * device.smCount > I32_MAX
    ensures Increment(Debug, device, diff) == None
  {
    assert AsI32(device.smCount) == device.smCount;
  }

  lemma ThreadsOverflow(device: Device, diff: nat, squared: nat)
    requires device.smCount <= I32_MAX && device.maxThreadPerSm <= I32_MAX
    requires squared == device.smCount * device.smCount && squared * device.maxThreadPerSm > I32_MAX
    ensures Increment(Debug, device, diff) == None
  {
    if squared > I32_MAX {
      SquareOverflows(device, diff);
    } else {
      assert I32(Debug, AsI32(device.smCount) * AsI32(device.smCount)) == Some(squared);
      assert I32(Debug, squared * AsI32(device.maxThreadPerSm)) == None;
    }
  }

  /** What is left once the threads fit. */
  lemma IncrementFromBase(device: Device, diff: nat, squared: nat, threads: nat)
    requires device.upLimit <= I32_MAX && device.smCount <= I32_MAX && device.maxThreadPerSm <= I32_MAX
    requires squared == device.smCount * device.smCount <= I32_MAX
    requires threads == squared * device.maxThreadPerSm <= I32_MAX
    ensures Base(device) == threads / 256 <= I32_MAX
    ensures Increment(Debug, device, diff) ==
            if Base(device) * diff > I32_MAX then None
            else if diff > device.upLimit / 2 then Amplified(Debug, PlainIncrement(device, diff), diff, device.upLimit)
            else Some(PlainIncrement(device, diff))
  {
    assert I32(Debug, AsI32(device.smCount) * AsI32(device.smCount)) == Some(squared);
    assert I32(Debug, squared * AsI32(device.maxThreadPerSm)) == Some(threads);
    DivAtMost(threads, 256);
    QuotientIs(threads, 256);
    var scaled := Base(device) * diff;
    assert I32(Debug, scaled) == if scaled <= I32_MAX then Some(scaled) else None;
    if scaled <= I32_MAX {
      DivAtMost(scaled, 10);
      QuotientIs(scaled, 10);
    }
    QuotientIs(device.upLimit, 2);
  }

  lemma ScalingExact(device: Device, diff: nat, plain: nat)
    requires device.upLimit <= I32_MAX && plain == PlainIncrement(device, diff) && Base(device) * diff <= I32_MAX
    ensures ScalingFits(device, diff) ==> ExactIncrement(device, diff) <= I32_MAX
    ensures (if diff > device.upLimit / 2 then Amplified(Debug, plain, diff, device.upLimit) else Some(plain)) ==
            if ScalingFits(device, diff) then Some(ExactIncrement(device, diff)) else None
  {
    DivAtMost(Base(device) * diff, 10);
    if diff > device.upLimit / 2 {
      var product := plain * diff;
      AmplifiedFits(plain, diff, device.upLimit, product);
      assert ScalingFits(device, diff) <==> product * 2 <= I32_MAX && device.upLimit < I32_MAX;
      assert ExactIncrement(device, diff) == product * 2 / (device.upLimit + 1);
    }
  }

  lemma {:induction false} IncrementExact(device: Device, diff: nat)
    requires device.upLimit <= I32_MAX && device.smCount <= I32_MAX && device.maxThreadPerSm <= I32_MAX
    ensures Increment(Debug, device, diff) ==
            if IncrementFits(device, diff) then Some(ExactIncrement(device, diff)) else None
    ensures IncrementFits(device, diff) ==> ExactIncrement(device, diff) <= I32_MAX
  {
    var squared := device.smCount * device.smCount;
    var threads := squared * device.maxThreadPerSm;
    assert IncrementFits(device, diff) <==> squared <= I32_MAX && threads <= I32_MAX && ScalingFits(device, diff);
    if Base(device) * diff <= I32_MAX {
      ScalingExact(device, diff, PlainIncrement(device, diff));
    }
    if squared > I32_MAX {
      SquareOverflows(device, diff);
    } else if threads > I32_MAX {
      ThreadsOverflow(device, diff, squared);
    } else {
      IncrementFromBase(device, diff, squared, threads);
    }
  }

  /** Exactly when a debug build panics: unless everything fits; and when everything does, both builds compute the
      share over the integers. */
  lemma {:induction false} DeltaExact(device: Device, userCurrent: U32, share: int)
    requires Castable(device, userCurrent, share)
    ensures Delta(Debug, device, userCurrent, share) ==
            if DeltaFits(device, userCurrent, share) then Some(ExactDelta(device, userCurrent, share)) else None
    ensures DeltaFits(device, userCurrent, share) ==>
              Delta(Release, device, userCurrent, share) == Some(ExactDelta(device, userCurrent, share))
  {
    var diff := Distance(device, userCurrent);
    IncrementExact(device, diff);
    if Delta(Debug, device, userCurrent, share).Some? {
      BuildsAgree(device, userCurrent, share);
    }
  }

  // Where a debug build does not panic, a release build does the same.

  lemma AmplifiedAgrees(increment: int, diff: int, upLimit: int)
    requires Amplified(Debug, increment, diff, upLimit).Some?
    ensures Amplified(Release, increment, diff, upLimit) == Amplified(Debug, increment, diff, upLimit)
  {
  }

  lemma IncrementAgrees(device: Device, diff: int)
    requires Increment(Debug, device, diff).Some?
    ensures Increment(Release, device, diff) == Increment(Debug, device, diff)
  {
  }

  lemma {:induction false} BuildsAgree(device: Device, userCurrent: U32, share: int)
    requires Delta(Debug, device, userCurrent, share).Some?
    ensures Delta(Release, device, userCurrent, share) == Delta(Debug, device, userCurrent, share)
  {
  }

  /** What a release build divides when the difference is large. */
  function WrappedTwice(increment: int, diff: int): int {
    Wrapped(Wrapped(increment * diff) * 2)
  }

  /** The distance a release build works with. */
  function ReleaseDiff(device: Device, userCurrent: U32): (diff: int)
    ensures 5 <= diff <= I32_MAX
  {
    var distance := Wrapped(Magnitude(Wrapped(AsI32(device.upLimit) - AsI32(userCurrent))));
    if distance < 5 then 5 else distance
  }

  /** The increment of a release build before any scaling. */
  function ReleasePlain(device: Device, diff: int): int {
    var threads := Wrapped(Wrapped(AsI32(device.smCount) * AsI32(device.smCount)) * AsI32(device.maxThreadPerSm));
    Truncated(Wrapped(Truncated(threads, 256) * diff), 10)
  }

  function Truncated(x: int, n: nat): int
    requires 0 < n
  {
    if x < 0 then -(Magnitude(x) / n) else x / n
  }

  lemma TruncatedFits(x: int, n: nat)
    requires Fits(x) && 0 < n
    ensures Div(x, n) == Some(Truncated(x, n)) && Fits(Truncated(x, n))
  {
    DivAtMost(Magnitude(x), n);
  }

  lemma ReleaseIncrement(device: Device, diff: int)
    requires 5 <= diff <= I32_MAX
    ensures var upLimit, plain := AsI32(device.upLimit), ReleasePlain(device, diff);
            Increment(Release, device, diff) ==
            if diff > Truncated(upLimit, 2) then Amplified(Release, plain, diff, upLimit) else Some(plain)
  {
    var threads := Wrapped(Wrapped(AsI32(device.smCount) * AsI32(device.smCount)) * AsI32(device.maxThreadPerSm));
    TruncatedFits(threads, 256);
    TruncatedFits(Wrapped(Truncated(threads, 256) * diff), 10);
    TruncatedFits(AsI32(device.upLimit), 2);
  }

  lemma ReleaseAmplified(increment: int, diff: int, upLimit: int)
    requires Fits(upLimit)
    ensures Amplified(Release, increment, diff, upLimit).None? <==>
            upLimit == -1 || (upLimit == -2 && WrappedTwice(increment, diff) == I32_MIN)
  {
    var twice, next := WrappedTwice(increment, diff), Wrapped(upLimit + 1);
    assert Amplified(Release, increment, diff, upLimit) == Div(twice, next);
    if next != 0 {
      DivByMagnitude(twice, next);
    }
  }

  lemma DivByMagnitude(x: int, y: int)
    requires Fits(x) && Fits(y) && y != 0
    ensures Div(x, y).None? <==> x == I32_MIN && y == -1
  {
    DivAtMost(Magnitude(x), Magnitude(y));
    if x == I32_MIN && Magnitude(y) > 1 {
      MulMono(Magnitude(x) / Magnitude(y), 2, Magnitude(x) / Magnitude(y), Magnitude(y));
    }
  }

  /** Exactly when a release build panics: when the limit reads as -1, and it divides by 0; or when it reads as -2,
      and what it divides by -1 has wrapped to the least number. */
  lemma {:induction false} ReleasePanics(device: Device, userCurrent: U32, share: int)
    ensures var diff := ReleaseDiff(device, userCurrent);
            Delta(Release, device, userCurrent, share).None? <==>
            device.upLimit == 0xFFFF_FFFF ||
            (device.upLimit == 0xFFFF_FFFE && WrappedTwice(ReleasePlain(device, diff), diff) == I32_MIN)
  {
    var upLimit, diff := AsI32(device.upLimit), ReleaseDiff(device, userCurrent);
    ReleaseIncrement(device, diff);
    ReleaseAmplified(ReleasePlain(device, diff), diff, upLimit);
  }

  /** A release build multiplies the SMs of this device to 0. */
  lemma WrappedSquare(device: Device)
    requires device == Device(50, 1000, 65536, 1)
    ensures ReleasePlain(device, 50) == 0
  {
    assert Wrapped(0x1_0000_0000) == 0;
  }

  lemma WrappedIncrement(device: Device)
    requires device == Device(50, 1000, 65536, 1)
    ensures Increment(Release, device, 50) == Some(0)
  {
    WrappedSquare(device);
    ReleaseIncrement(device, 50);
    assert Amplified(Release, 0, 50, 50) == Some(0);
  }

  lemma FormulaIncrement(device: Device)
    requires device == Device(50, 1000, 65536, 1)
    ensures !IncrementFits(device, 50) && ExactIncrement(device, 50) == 164482509
  {
    assert Base(device) == 16777216;
    assert PlainIncrement(device, 50) == 83886080;
  }

  /** A device with 65536 SMs: the square overflows in a debug build; it wraps to 0 in a release build, which leaves
      an unused device without any cores, where the formula gives it all of them. */
  lemma OverflowingDevice(device: Device)
    requires device == Device(50, 1000, 65536, 1)
    ensures Delta(Debug, device, 0, 0) == None
    ensures Delta(Release, device, 0, 0) == Some(0)
    ensures ExactDelta(device, 0, 0) == 1000
  {
    FormulaIncrement(device);
    WrappedIncrement(device);
    DeltaExact(device, 0, 0);
  }

  // Repeated adjustments.

  /** The share after a series of utilization readings. */
  function ShareAfter(device: Device, share: int, readings: seq<U32>): int {
    if readings == [] then share
    else ExactDelta(device, readings[|readings| - 1], ShareAfter(device, share, readings[..|readings| - 1]))
  }

  /** The share after the same readings in the source's arithmetic. */
  function ShareRun(build: Build, device: Device, share: int, readings: seq<U32>): Option<int> {
    if readings == [] then Some(share)
    else
      var before :- ShareRun(build, device, share, readings[..|readings| - 1]);
      Delta(build, device, readings[|readings| - 1], before)
  }

  /** Within the bounds both builds compute just that, over any series of readings, and the share stays in its range. */
  lemma {:induction false} RunNeverOverflows(build: Build, device: Device, share: int, readings: seq<U32>)
    requires WithinBounds(device) && 0 <= share <= device.totalCores
    requires forall k :: 0 <= k < |readings| ==> readings[k] <= 100
    ensures ShareRun(build, device, share, readings) == Some(ShareAfter(device, share, readings))
    ensures 0 <= ShareAfter(device, share, readings) <= device.totalCores
  {
    if readings != [] {
      var init, last := readings[..|readings| - 1], readings[|readings| - 1];
      RunNeverOverflows(build, device, share, init);
      DeltaNeverOverflows(build, device, last, ShareAfter(device, share, init));
    }
  }

  /** The least any adjustment moves the share. */
  function LeastStep(device: Device): nat {
    Base(device) * 5 / 10
  }

  lemma StepAtLeast(device: Device, diff: nat)
    requires 5 <= diff
    ensures LeastStep(device) <= ExactIncrement(device, diff)
  {
    ScalingNeverLowers(device, diff);
    MulMono(Base(device), 5, Base(device), diff);
  }

  /** Readings within the limit raise the share by at least the least step each, until it is the total. */
  lemma {:induction false} LowReadingsRaise(device: Device, share: int, readings: seq<U32>)
    requires 0 <= share <= device.totalCores && forall k :: 0 <= k < |readings| ==> readings[k] <= device.upLimit
    ensures ShareAfter(device, share, readings) <= device.totalCores
    ensures ShareAfter(device, share, readings) == device.totalCores ||
            ShareAfter(device, share, readings) >= share + |readings| * LeastStep(device)
  {
    if readings != [] {
      LowReadingsRaise(device, share, readings[..|readings| - 1]);
      StepAtLeast(device, Distance(device, readings[|readings| - 1]));
      assert |readings| * LeastStep(device) == (|readings| - 1) * LeastStep(device) + LeastStep(device);
    }
  }

  /** Readings above the limit lower the share by at least the least step each, until it is 0. */
  lemma {:induction false} HighReadingsLower(device: Device, share: int, readings: seq<U32>)
    requires 0 <= share <= device.totalCores && forall k :: 0 <= k < |readings| ==> readings[k] > device.upLimit
    ensures 0 <= ShareAfter(device, share, readings)
    ensures ShareAfter(device, share, readings) == 0 ||
            ShareAfter(device, share, readings) <= share - |readings| * LeastStep(device)
  {
    if readings != [] {
      HighReadingsLower(device, share, readings[..|readings| - 1]);
      StepAtLeast(device, Distance(device, readings[|readings| - 1]));
      assert |readings| * LeastStep(device) == (|readings| - 1) * LeastStep(device) + LeastStep(device);
    }
  }

  /** Every adjustment moves the share exactly when the SMs are large enough for the integer divisions. */
  lemma {:induction false} MovesIffLargeEnough(device: Device)
    ensures device.smCount * device.smCount * device.maxThreadPerSm >= 512 <==> LeastStep(device) >= 1
    ensures device.smCount * device.smCount * device.maxThreadPerSm < 512 ==> ExactIncrement(device, 5) == 0
  {
    if device.smCount * device.smCount * device.maxThreadPerSm < 512 {
      MulMono(Base(device), 5, 1, 5);
      assert PlainIncrement(device, 5) == 0;
    }
  }

  /** As many readings on one side as the share has room for drive it all the way, when the SMs are large enough. */
  lemma {:induction false} Converges(device: Device, share: int, readings: seq<U32>)
    requires device.smCount * device.smCount * device.maxThreadPerSm >= 512
    requires 0 <= share <= device.totalCores
    ensures |readings| * LeastStep(device) >= device.totalCores - share &&
            (forall k :: 0 <= k < |readings| ==> readings[k] <= device.upLimit) ==>
              ShareAfter(device, share, readings) == device.totalCores
    ensures |readings| * LeastStep(device) >= share &&
            (forall k :: 0 <= k < |readings| ==> readings[k] > device.upLimit) ==>
              ShareAfter(device, share, readings) == 0
    ensures |readings| <= |readings| * LeastStep(device)
  {
    MovesIffLargeEnough(device);
    MulMono(|readings|, 1, |readings|, LeastStep(device));
    if forall k :: 0 <= k < |readings| ==> readings[k] <= device.upLimit {
      LowReadingsRaise(device, share, readings);
    }
    if forall k :: 0 <= k < |readings| ==> readings[k] > device.upLimit {
      HighReadingsLower(device, share, readings);
    }
  }

  /** So in both builds that many readings on one side drive the share to the total, or to 0. */
  lemma {:induction false} DrivesShare(build: Build, device: Device, share: int, readings: seq<U32>)
    requires WithinBounds(device) && device.smCount * device.smCount * device.maxThreadPerSm >= 512
    requires 0 <= share <= device.totalCores && forall k :: 0 <= k < |readings| ==> readings[k] <= 100
    ensures |readings| >= device.totalCores - share &&
            (forall k :: 0 <= k < |readings| ==> readings[k] <= device.upLimit) ==>
              ShareRun(build, device, share, readings) == Some(device.totalCores)
    ensures |readings| >= share && (forall k :: 0 <= k < |readings| ==> readings[k] > device.upLimit) ==>
              ShareRun(build, device, share, readings) == Some(0)
  {
    RunNeverOverflows(build, device, share, readings);
    Converges(device, share, readings);
  }

  /** With smaller SMs a share never moves while the utilization stays within 5 of the limit. */
  lemma {:induction false} StuckNearLimit(device: Device, share: int, readings: seq<U32>)
    requires device.smCount * device.smCount * device.maxThreadPerSm < 512
    requires 0 <= share <= device.totalCores
    requires forall k :: 0 <= k < |readings| ==> Distance(device, readings[k]) == 5
    ensures ShareAfter(device, share, readings) == share
  {
    if readings != [] {
      StuckNearLimit(device, share, readings[..|readings| - 1]);
      MovesIffLargeEnough(device);
    }
  }

  class SharedDeviceInfoV1 {
    var active: bool
    var availableCores: int

    /** Reads the share, moves it, writes it back; an inactive device is left alone, and so is one whose adjustment
        panics. */
    method UpdateV1State(build: Build, device: Device, utilization: U32) returns (panicked: bool)
      modifies this`availableCores
      ensures panicked <==> Delta(build, device, utilization, if active then old(availableCores) else 0).None?
      ensures !active || panicked ==> availableCores == old(availableCores)
      ensures active && !panicked ==> Some(availableCores) == Delta(build, device, utilization, old(availableCores))
      ensures active && WithinBounds(device) && utilization <= 100 && 0 <= old(availableCores) <= device.totalCores ==>
                && !panicked && availableCores == ExactDelta(device, utilization, old(availableCores))
                && 0 <= availableCores <= device.totalCores
    {
      var currentShare := if active then availableCores else 0;
      var newShare := Delta(build, device, utilization, currentShare);
      if WithinBounds(device) && utilization <= 100 && 0 <= currentShare <= device.totalCores {
        DeltaNeverOverflows(build, device, utilization, currentShare);
      }
      panicked := newShare.None?;
      if active && newShare.Some? {
        availableCores := newShare.value;
      }
    }
  }
}
