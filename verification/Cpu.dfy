/**
 CPU usage from two readings of the kernel's counters. Counters and their sums
 are 64-bit and wrap around; percentages are real numbers.
 */
module Cpu {
  import opened Prelude

  datatype Counters = Counters(
    user: nat, nice: nat, system: nat,
    idle: nat, ioWait: nat, irq: nat,
    softIrq: nat, steal: nat)

  datatype Breakdown = Breakdown(user: real, system: real, ioWait: real, steal: real, idle: real)

  predicate InRange(c: Counters) {
    && c.user <= MaxUint64 && c.nice <= MaxUint64 && c.system <= MaxUint64 && c.idle <= MaxUint64
    && c.ioWait <= MaxUint64 && c.irq <= MaxUint64 && c.softIrq <= MaxUint64 && c.steal <= MaxUint64
  }

  /** `uint64` arithmetic: the representative within 64 bits. */
  function Wrap(x: int): (r: nat)
    ensures r <= MaxUint64
    decreases if x < 0 then MaxUint64 + 1 - x else x
  {
    if x < 0 then Wrap(x + MaxUint64 + 1)
    else if x > MaxUint64 then Wrap(x - MaxUint64 - 1)
    else x
  }

  function TrueTotal(c: Counters): nat {
    c.user + c.nice + c.system + c.idle + c.ioWait + c.irq + c.softIrq + c.steal
  }

  function Total(c: Counters): nat {
    Wrap(TrueTotal(c))
  }

  function IdleTotal(c: Counters): nat {
    Wrap(c.idle + c.ioWait)
  }

  predicate NoneDecreased(c: Counters, p: Counters) {
    && c.user >= p.user && c.nice >= p.nice && c.system >= p.system && c.idle >= p.idle
    && c.ioWait >= p.ioWait && c.irq >= p.irq && c.softIrq >= p.softIrq && c.steal >= p.steal
  }

  predicate ValidDelta(c: Counters, p: Counters) {
    NoneDecreased(c, p) && Total(c) > Total(p)
  }

  /** `a` in percent of `total`. */
  function Share(a: nat, total: nat): real
    requires total > 0
  {
    a as real * 100.0 / total as real
  }

  /** What is subtracted before anything is divided. */
  datatype Deltas = Deltas(total: nat, unused: nat, user: nat, system: nat, ioWait: nat, steal: nat, idle: nat)

  function DeltasOf(c: Counters, p: Counters): Deltas {
    Deltas(Wrap(Total(c) - Total(p)), Wrap(IdleTotal(c) - IdleTotal(p)),
           Wrap(Wrap(c.user + c.nice) - Wrap(p.user + p.nice)),
           Wrap(Wrap(c.system + c.irq + c.softIrq) - Wrap(p.system + p.irq + p.softIrq)),
           Wrap(c.ioWait - p.ioWait), Wrap(c.steal - p.steal), Wrap(c.idle - p.idle))
  }

  lemma ElapsedPositive(c: Counters, p: Counters)
    requires ValidDelta(c, p)
    ensures DeltasOf(c, p).total > 0
  {
  }

  function Percentage(c: Counters, p: Counters): Option<real> {
    if !ValidDelta(c, p) then None
    else
      var d := DeltasOf(c, p);
      ElapsedPositive(c, p);
      Some(Share(Wrap(d.total - d.unused), d.total))
  }

  function CpuBreakdown(c: Counters, p: Counters): Option<Breakdown> {
    if !ValidDelta(c, p) then None
    else
      var d := DeltasOf(c, p);
      ElapsedPositive(c, p);
      Some(Breakdown(Share(d.user, d.total), Share(d.system, d.total), Share(d.ioWait, d.total),
                     Share(d.steal, d.total), Share(d.idle, d.total)))
  }

  // ---------- Wrap-around cancels ----------

  lemma WrapPeriod(x: int)
    ensures Wrap(x + MaxUint64 + 1) == Wrap(x)
  {
  }

  lemma {:induction false} WrapLeft(x: nat, y: int)
    ensures Wrap(Wrap(x) - y) == Wrap(x - y)
    decreases x
  {
    if x > MaxUint64 {
      WrapLeft(x - MaxUint64 - 1, y);
      WrapPeriod(x - MaxUint64 - 1 - y);
    }
  }

  lemma {:induction false} WrapRight(x: int, y: nat)
    ensures Wrap(x - Wrap(y)) == Wrap(x - y)
    decreases y
  {
    if y > MaxUint64 {
      WrapRight(x, y - MaxUint64 - 1);
      WrapPeriod(x - y);
    }
  }

  /** A difference of wrapped sums is the true difference, when that fits. */
  lemma WrapDifference(current: nat, previous: nat)
    requires previous <= current <= previous + MaxUint64
    ensures Wrap(Wrap(current) - Wrap(previous)) == current - previous
  {
    WrapLeft(current, Wrap(previous));
    WrapRight(current, previous);
  }

  lemma WrapFits(x: nat)
    requires x <= MaxUint64
    ensures Wrap(x) == x
  {
  }

  // ---------- The promises ----------

  lemma ShareScaled(a: nat, total: nat)
    requires total > 0
    ensures Share(a, total) == a as real * (100.0 / total as real)
  {
  }

  lemma ShareRange(a: nat, total: nat)
    requires total > 0 && a <= total
    ensures 0.0 <= Share(a, total) <= 100.0
  {
    assert a as real * 100.0 <= 100.0 * total as real;
  }

  lemma SharesAdd(a: nat, b: nat, total: nat)
    requires total > 0
    ensures Share(a, total) + Share(b, total) == Share(a + b, total) && Share(total, total) == 100.0
  {
    ShareScaled(a, total);
    ShareScaled(b, total);
    ShareScaled(a + b, total);
  }

  lemma TotalTrue(c: Counters, p: Counters)
    requires ValidDelta(c, p) && TrueTotal(c) - TrueTotal(p) <= MaxUint64
    ensures DeltasOf(c, p).total == TrueTotal(c) - TrueTotal(p)
    ensures DeltasOf(c, p).unused == c.idle + c.ioWait - p.idle - p.ioWait
  {
    WrapDifference(TrueTotal(c), TrueTotal(p));
    WrapDifference(c.idle + c.ioWait, p.idle + p.ioWait);
  }

  lemma GroupsTrue(c: Counters, p: Counters)
    requires InRange(c) && InRange(p) && NoneDecreased(c, p) && TrueTotal(c) - TrueTotal(p) <= MaxUint64
    ensures var d := DeltasOf(c, p);
            && d.user == c.user + c.nice - p.user - p.nice
            && d.system == c.system + c.irq + c.softIrq - p.system - p.irq - p.softIrq
            && d.ioWait == c.ioWait - p.ioWait && d.steal == c.steal - p.steal && d.idle == c.idle - p.idle
  {
    WrapDifference(c.user + c.nice, p.user + p.nice);
    WrapDifference(c.system + c.irq + c.softIrq, p.system + p.irq + p.softIrq);
    SinglesTrue(c, p);
  }

  lemma SinglesTrue(c: Counters, p: Counters)
    requires InRange(c) && NoneDecreased(c, p)
    ensures Wrap(c.ioWait - p.ioWait) == c.ioWait - p.ioWait
    ensures Wrap(c.steal - p.steal) == c.steal - p.steal
    ensures Wrap(c.idle - p.idle) == c.idle - p.idle
  {
    WrapFits(c.ioWait - p.ioWait);
    WrapFits(c.steal - p.steal);
    WrapFits(c.idle - p.idle);
  }

  /** The wrapped differences are the true ones, and the parts make up the total. */
  lemma DeltasTrue(c: Counters, p: Counters)
    requires InRange(c) && InRange(p) && ValidDelta(c, p) && TrueTotal(c) - TrueTotal(p) <= MaxUint64
    ensures var d := DeltasOf(c, p);
            && d.total == TrueTotal(c) - TrueTotal(p) > 0
            && d.total == d.user + d.system + d.ioWait + d.steal + d.idle
            && d.unused == d.ioWait + d.idle && Wrap(d.total - d.unused) == d.total - d.unused
  {
    TotalTrue(c, p);
    GroupsTrue(c, p);
    ElapsedPositive(c, p);
    WrapFits(DeltasOf(c, p).total - DeltasOf(c, p).unused);
  }

  /** For counters that did not decrease, whose sums may wrap but whose true difference
      fits in 64 bits, the five values are percentages that add up to exactly 100, and
      the overall percentage is what idle and I/O wait leave of it. */
  lemma BreakdownAddsUp(c: Counters, p: Counters)
    requires InRange(c) && InRange(p) && ValidDelta(c, p) && TrueTotal(c) - TrueTotal(p) <= MaxUint64
    ensures CpuBreakdown(c, p).Some? && Percentage(c, p).Some?
    ensures var b := CpuBreakdown(c, p).value;
            && 0.0 <= b.user <= 100.0 && 0.0 <= b.system <= 100.0 && 0.0 <= b.ioWait <= 100.0
            && 0.0 <= b.steal <= 100.0 && 0.0 <= b.idle <= 100.0
            && b.user + b.system + b.ioWait + b.steal + b.idle == 100.0
            && Percentage(c, p).value == 100.0 - b.idle - b.ioWait
  {
    DeltasTrue(c, p);
    var d := DeltasOf(c, p);
    PartsAddUp(d.user, d.system, d.ioWait, d.steal, d.idle);
  }

  /** Which counters stand behind which value: user and nice; system and both interrupt
      counters; I/O wait, steal and idle each alone; and the rest of the total is idle and
      I/O wait for the overall percentage. */
  lemma BreakdownTrue(c: Counters, p: Counters)
    requires InRange(c) && InRange(p) && ValidDelta(c, p) && TrueTotal(c) - TrueTotal(p) <= MaxUint64
    ensures var total := TrueTotal(c) - TrueTotal(p);
            && total > 0
            && CpuBreakdown(c, p).value.user == Share(c.user + c.nice - p.user - p.nice, total)
            && CpuBreakdown(c, p).value.system
            == Share(c.system + c.irq + c.softIrq - p.system - p.irq - p.softIrq, total)
            && CpuBreakdown(c, p).value.ioWait == Share(c.ioWait - p.ioWait, total)
            && CpuBreakdown(c, p).value.steal == Share(c.steal - p.steal, total)
            && CpuBreakdown(c, p).value.idle == Share(c.idle - p.idle, total)
            && Percentage(c, p).value == Share(total - (c.idle + c.ioWait - p.idle - p.ioWait), total)
  {
    TotalTrue(c, p);
    GroupsTrue(c, p);
    DeltasTrue(c, p);
  }

  /** Nothing is reported exactly when a counter went back or the wrapped total did not grow. */
  lemma ReportedExact(c: Counters, p: Counters)
    ensures CpuBreakdown(c, p).Some? <==> Percentage(c, p).Some?
    ensures CpuBreakdown(c, p).Some?
            <==> && c.user >= p.user && c.nice >= p.nice && c.system >= p.system && c.idle >= p.idle
                 && c.ioWait >= p.ioWait && c.irq >= p.irq && c.softIrq >= p.softIrq && c.steal >= p.steal
                 && Wrap(c.user + c.nice + c.system + c.idle + c.ioWait + c.irq + c.softIrq + c.steal)
                    > Wrap(p.user + p.nice + p.system + p.idle + p.ioWait + p.irq + p.softIrq + p.steal)
  {
  }

  lemma PartsAddUp(a: nat, b: nat, c: nat, d: nat, e: nat)
    requires a + b + c + d + e > 0
    ensures var n := a + b + c + d + e;
            && 0.0 <= Share(a, n) <= 100.0 && 0.0 <= Share(b, n) <= 100.0 && 0.0 <= Share(c, n) <= 100.0
            && 0.0 <= Share(d, n) <= 100.0 && 0.0 <= Share(e, n) <= 100.0
            && Share(a, n) + Share(b, n) + Share(c, n) + Share(d, n) + Share(e, n) == 100.0
            && Share(n - (c + e), n) == 100.0 - Share(e, n) - Share(c, n)
  {
    var n := a + b + c + d + e;
    ShareRange(a, n);
    ShareRange(b, n);
    ShareRange(c, n);
    ShareRange(d, n);
    ShareRange(e, n);
    SharesAdd(a, b, n);
    SharesAdd(a + b, c, n);
    SharesAdd(a + b + c, d, n);
    SharesAdd(a + b + c + d, e, n);
    SharesAdd(c, e, n);
    SharesAdd(n - (c + e), c + e, n);
  }
}
