// The arithmetic of a session: what the wallet charges at the end of it, and what the
// ticker drains from the cached balance while it runs. Amounts are cents.
module Billing {
  const NANOS_PER_SECOND := 1_000_000_000
  const MIN_BILLED_SECONDS := 5
  const TICK_SECONDS := 5

  /** Integer division that truncates toward zero. */
  function Truncate(a: int, b: int): int
    requires b > 0
  {
    if a >= 0 then a / b else -((-a) / b)
  }

  /** Whole seconds of a session, never fewer than five. */
  function BilledSeconds(elapsedNanos: int): int {
    var d := Truncate(elapsedNanos, NANOS_PER_SECOND);
    if d < MIN_BILLED_SECONDS then MIN_BILLED_SECONDS else d
  }

  /** Started minutes: the ceiling of seconds / 60. */
  function Minutes(seconds: int): int {
    (seconds + 59) / 60
  }

  function Charge(rate: int, seconds: int): int {
    Minutes(seconds) * rate
  }

  datatype Bill = Bill(seconds: int, total: int, earnings: int, fee: int)

  function BillFor(rate: int, elapsedNanos: int, feePercent: int): Bill {
    var seconds := BilledSeconds(elapsedNanos);
    var total := Charge(rate, seconds);
    var fee := Truncate(total * feePercent, 100);
    Bill(seconds, total, total - fee, fee)
  }

  /** What one five-second tick takes out of the cached balance. */
  function CostPerInterval(rate: int): int {
    var c := Truncate(rate, 12);
    if c < 1 then 1 else c
  }

  /** Truncation toward zero keeps the sign and loses less than one. */
  lemma TruncateIsTowardZero(a: int, b: int)
    requires b > 0
    ensures var r := Truncate(a, b);
            if a >= 0 then r >= 0 && r * b <= a < r * b + b else r <= 0 && r * b - b < a <= r * b
  {
  }

  /** Minutes is the least whole number of minutes that covers the duration. */
  lemma MinutesIsCeiling(seconds: int, m: int)
    ensures 60 * (Minutes(seconds) - 1) < seconds <= 60 * Minutes(seconds)
    ensures seconds <= 60 * m <==> Minutes(seconds) <= m
  {
  }

  /** Where the charge of a session lies. */
  lemma ChargeBounds(rate: int, seconds: int)
    requires rate >= 0 && seconds >= 0
    ensures rate * seconds <= 60 * Charge(rate, seconds) <= rate * (seconds + 59)
  {
    MinutesIsCeiling(seconds, 0);
    var m := Minutes(seconds);
    assert 60 * m <= seconds + 59;
    MulMono(rate, seconds, 60 * m);
    MulMono(rate, 60 * m, seconds + 59);
    assert rate * (60 * m) == 60 * (m * rate);
  }

  lemma MulMono(k: int, a: int, b: int)
    requires k >= 0 && a <= b
    ensures k * a <= k * b
  {
  }

  /** The bill splits exactly, both parts are non-negative, and the platform's part is the
      exact percentage rounded down to a cent. A session of at most 180 seconds never costs
      more than three minutes. */
  lemma BillSplits(rate: int, elapsedNanos: int, feePercent: int)
    requires rate >= 0 && 0 <= feePercent <= 100
    ensures var b := BillFor(rate, elapsedNanos, feePercent);
            && b.earnings + b.fee == b.total
            && 0 <= b.fee && 0 <= b.earnings && rate <= b.total
            && 100 * b.fee <= b.total * feePercent < 100 * b.fee + 100
            && (elapsedNanos < 181 * NANOS_PER_SECOND ==> b.total <= 3 * rate)
  {
    var b := BillFor(rate, elapsedNanos, feePercent);
    var m := Minutes(b.seconds);
    MinutesIsCeiling(b.seconds, 3);
    assert m >= 1;
    MulMono(rate, 1, m);
    assert b.total == rate * m;
    MulMono(b.total, 0, feePercent);
    MulMono(b.total, feePercent, 100);
    if elapsedNanos < 181 * NANOS_PER_SECOND {
      assert b.seconds <= 180;
      MulMono(rate, m, 3);
    }
  }

  /** A session costs at most three minutes exactly when it lasts less than 181 seconds. */
  lemma ThreeMinuteThreshold(rate: int, elapsedNanos: int, feePercent: int)
    requires rate > 0
    ensures BillFor(rate, elapsedNanos, feePercent).total <= 3 * rate <==> elapsedNanos < 181 * NANOS_PER_SECOND
  {
    var seconds := BilledSeconds(elapsedNanos);
    var m := Minutes(seconds);
    MinutesIsCeiling(seconds, 3);
    if m <= 3 {
      MulMono(rate, m, 3);
    } else {
      MulMono(rate, 4, m);
    }
  }

  /** Every started minute is charged, and one minute at least: m minutes as soon as the session
      lasts a second longer than m - 1 of them, and until it lasts a second longer than m. */
  lemma ChargeOfMinutes(rate: int, elapsedNanos: int, feePercent: int, m: int)
    requires m >= 1 && elapsedNanos < (60 * m + 1) * 1_000_000_000
    requires m == 1 || elapsedNanos >= (60 * (m - 1) + 1) * 1_000_000_000
    ensures BillFor(rate, elapsedNanos, feePercent).total == m * rate
  {
    MinutesIsCeiling(BilledSeconds(elapsedNanos), m);
    MinutesIsCeiling(BilledSeconds(elapsedNanos), m - 1);
  }

  /** So m minutes cover the charge exactly below that. */
  lemma ChargeThreshold(rate: int, elapsedNanos: int, feePercent: int, m: int)
    requires rate > 0 && m >= 1
    ensures BillFor(rate, elapsedNanos, feePercent).total <= m * rate <==> elapsedNanos < (60 * m + 1) * 1_000_000_000
  {
    var k := Minutes(BilledSeconds(elapsedNanos));
    MinutesIsCeiling(BilledSeconds(elapsedNanos), m);
    if k <= m {
      MulMono(rate, k, m);
    } else {
      MulMono(rate, m + 1, k);
    }
  }

  /** The recorded duration is the whole seconds that have passed, and five at least. */
  lemma RecordedSeconds(rate: int, elapsedNanos: int, feePercent: int)
    ensures var seconds := BillFor(rate, elapsedNanos, feePercent).seconds;
            && seconds >= 5 && (seconds == 5 || seconds * 1_000_000_000 <= elapsedNanos)
            && elapsedNanos < (seconds + 1) * 1_000_000_000
  {
  }

  /** A tick costs a twelfth of the minute's rate, rounded down, and a cent at least. */
  lemma CostOfTick(rate: int)
    ensures var c := CostPerInterval(rate);
            if rate < 12 then c == 1 else 12 * c <= rate < 12 * c + 12
  {
  }

  /** A longer session is never billed less. */
  lemma BillMonotone(rate: int, e1: int, e2: int, feePercent: int)
    requires rate >= 0 && e1 <= e2
    ensures BillFor(rate, e1, feePercent).total <= BillFor(rate, e2, feePercent).total
  {
    assert BilledSeconds(e1) <= BilledSeconds(e2);
    MulMono(rate, Minutes(BilledSeconds(e1)), Minutes(BilledSeconds(e2)));
  }

  /** n ticks at rate r drained no more than a session of d seconds is charged. */
  ghost predicate Covered(rate: int, n: nat, d: int) {
    n * CostPerInterval(rate) <= Charge(rate, d)
  }

  /** Ticks are five seconds apart, so n of them take at least 5n seconds: at every rate of
      twelve cents or more the drain never exceeds the charge. */
  lemma DrainCovered(rate: int, n: nat, d: int)
    requires rate >= 12 && d >= TICK_SECONDS * n
    ensures Covered(rate, n, d)
  {
    hide Charge;
    ChargeBounds(rate, d);
    CoverBound(rate, n, CostPerInterval(rate), d, Charge(rate, d));
  }

  lemma CoverBound(rate: int, n: nat, c: int, d: int, charge: int)
    requires rate >= 0 && 12 * c <= rate && d >= 5 * n && rate * d <= 60 * charge
    ensures n * c <= charge
  {
    MulMono(rate, 5 * n, d);
    MulMono(n, 12 * c, rate);
    assert rate * (5 * n) == 5 * (n * rate);
    assert n * (12 * c) == 12 * (n * c);
  }

  /** Twelve cents a minute is the exact threshold. */
  lemma DrainCoveredIff(rate: int)
    requires rate >= 1
    ensures (forall n: nat, d: int | d >= TICK_SECONDS * n && d >= MIN_BILLED_SECONDS :: Covered(rate, n, d)) <==> rate >= 12
  {
    if rate >= 12 {
      forall n: nat, d: int | d >= TICK_SECONDS * n && d >= MIN_BILLED_SECONDS
        ensures Covered(rate, n, d)
      {
        DrainCovered(rate, n, d);
      }
    } else {
      assert !Covered(rate, 12, 60);
    }
  }

  /** When the session lasts exactly its n ticks, the charge exceeds the drain by at most
      11(n + r)/12 cents. */
  lemma ExcessOfCharge(rate: int, n: nat)
    requires rate >= 12
    ensures 0 <= 12 * (Charge(rate, 5 * n) - n * CostPerInterval(rate)) <= 11 * (n + rate)
  {
    DrainCovered(rate, n, 5 * n);
    var c, m := CostPerInterval(rate), Minutes(5 * n);
    assert 0 <= rate - 12 * c <= 11 && 12 * m <= n + 11;
    ExcessBound(rate, n, c, m);
  }

  lemma ExcessBound(rate: int, n: nat, c: int, m: int)
    requires rate >= 0 && rate - 12 * c <= 11 && 12 * m <= n + 11
    ensures 12 * (m * rate - n * c) <= 11 * (n + rate)
  {
    MulMono(rate, 12 * m, n + 11);
    MulMono(n, rate - 12 * c, 11);
    assert rate * (12 * m) == 12 * (m * rate);
    assert n * (rate - 12 * c) == rate * n - 12 * (n * c);
    assert rate * (n + 11) == rate * n + 11 * rate;
  }

  /** A balance B that equals the cached one is exhausted after n = ceil(B / c) ticks; the
      settlement of those 5n seconds then leaves it in the interval (-(r + 11n/12), 0]. */
  lemma ExhaustedSettlement(rate: int, balance: int, n: nat)
    requires rate >= 12 && balance > 0
    requires (n - 1) * CostPerInterval(rate) < balance <= n * CostPerInterval(rate)
    ensures var left := balance - Charge(rate, 5 * n);
            && left <= 0
            && 12 * left > -(12 * rate + 11 * n)
  {
    var c := CostPerInterval(rate);
    ExcessOfCharge(rate, n);
    assert (n - 1) * c == n * c - c;
    assert 12 * c <= rate;
  }
}
