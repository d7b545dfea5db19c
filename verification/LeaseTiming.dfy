/** Lease durations: how long a lease is asked for, and how early it is renewed. */
module LeaseTiming {
  import opened Options

  const MIN_LEASE_EXTENSION_DURATION_SECS: nat := 10
  const MAX_LEASE_EXTENSION_DURATION_SECS: nat := 600

  /** Milliseconds between two looks at the expired leases. */
  const LEASE_RENEWAL_INTERVAL: nat := 1000

  datatype FlowControl = FlowControl(
    maxMessages: nat,
    maxProcessingMessages: nat,
    minSecs: nat,
    maxSecs: nat)

  predicate AllowedLease(flow: FlowControl) {
    MIN_LEASE_EXTENSION_DURATION_SECS <= flow.minSecs <= flow.maxSecs <= MAX_LEASE_EXTENSION_DURATION_SECS
  }

  /** Sets the lease bounds; where the source panics this returns an error. */
  function SetDurationPerLeaseExtension(flow: FlowControl, min: nat, max: nat): (r: Result<FlowControl, string>)
    ensures r.Ok? <==> AllowedLease(flow.(minSecs := min, maxSecs := max))
    ensures r.Ok? ==> r.value == flow.(minSecs := min, maxSecs := max)
  {
    if min < MIN_LEASE_EXTENSION_DURATION_SECS then Err("minimum is under the acceptable value")
    else if max > MAX_LEASE_EXTENSION_DURATION_SECS then Err("maximum is above the acceptable value")
    else if min > max then Err("minimum is greater than maximum")
    else Ok(flow.(minSecs := min, maxSecs := max))
  }

  function Clamp(x: nat, lo: nat, hi: nat): nat {
    if x < lo then lo else if x > hi then hi else x
  }

  /** The 32-bit cast of the source: the low 32 bits. */
  function AsU32(x: nat): nat {
    x % 0x1_0000_0000
  }

  /** The lease, in seconds, for a 99th latency percentile in milliseconds. */
  function LeaseSecs(flow: FlowControl, p99: nat): nat {
    Clamp(AsU32(RoundedUp(p99) / 1000), flow.minSecs, flow.maxSecs)
  }

  /** The next whole second. */
  function RoundedUp(millis: nat): nat {
    if millis % 1000 != 0 then millis + (1000 - millis % 1000) else millis
  }

  lemma RoundedUpIs(millis: nat)
    ensures millis <= RoundedUp(millis) < millis + 1000 && RoundedUp(millis) == RoundedUp(millis) / 1000 * 1000
  {
  }

  /** How much earlier than its lease a message is renewed: a fifth of the lease, at most five seconds. */
  function BufferMillis(secs: nat): int {
    var fifth := ((secs * 1000) as real * 0.2).Floor;
    if fifth <= 5000 then fifth else 5000
  }

  /** The longest wait, in milliseconds, before a lease of that many seconds is renewed. */
  function BufferedMillis(secs: nat): int {
    secs * 1000 - BufferMillis(secs)
  }

  /** The lease is the percentile rounded up to a whole second, kept within the configured bounds. */
  lemma LeaseIsClampedRoundUp(flow: FlowControl, p99: nat)
    requires AllowedLease(flow)
    ensures var secs := LeaseSecs(flow, p99);
      && flow.minSecs <= secs <= flow.maxSecs
      && secs * 1000 < 0x1_0000_0000
      && (flow.minSecs * 1000 < p99 <= flow.maxSecs * 1000 ==> p99 <= secs * 1000 < p99 + 1000)
      && (p99 <= flow.minSecs * 1000 ==> secs == flow.minSecs)
      && (flow.maxSecs * 1000 < p99 < 0x1_0000_0000 * 1000 - 1000 ==> secs == flow.maxSecs)
  {
    RoundedUpIs(p99);
    var whole := RoundedUp(p99) / 1000;
    if p99 < 0x1_0000_0000 * 1000 - 1000 {
      assert whole < 0x1_0000_0000;
      assert AsU32(whole) == whole;
    }
  }

  lemma FifthOf(secs: nat)
    ensures BufferMillis(secs) == if secs <= 25 then secs * 200 else 5000
    ensures 0 <= BufferMillis(secs) <= secs * 200
  {
    assert (secs * 1000) as real * 0.2 == (secs * 200) as real;
  }

  /** Every instant at which a renewal scheduled under a lease of `secs` seconds may be carried out. */
  ghost predicate RenewedAt(secs: nat, granted: nat, scheduled: nat, at: nat) {
    && granted + BufferedMillis(secs) / 2 <= scheduled < granted + BufferedMillis(secs)
    && scheduled <= at <= scheduled + LEASE_RENEWAL_INTERVAL
  }

  /**
    A renewal is carried out before the lease granted in the same pass runs out, one
    second early at least, for every latency and every allowed setting.
  */
  lemma RenewalBeatsExpiry(flow: FlowControl, p99: nat, granted: nat, scheduled: nat, at: nat)
    requires AllowedLease(flow) && RenewedAt(LeaseSecs(flow, p99), granted, scheduled, at)
    ensures at + 1000 < granted + LeaseSecs(flow, p99) * 1000
  {
    FifthOf(LeaseSecs(flow, p99));
  }

  /** Waiting up to one tick more is safe exactly for leases of five seconds or longer. */
  lemma RenewalSafeFromFiveSeconds(secs: nat)
    requires secs > 0
    ensures (forall granted: nat, scheduled: nat, at: nat ::
               RenewedAt(secs, granted, scheduled, at) ==> at < granted + secs * 1000)
       <==> secs >= 5
  {
    FifthOf(secs);
    if secs < 5 {
      var scheduled := BufferedMillis(secs) - 1;
      assert RenewedAt(secs, 0, scheduled, scheduled + LEASE_RENEWAL_INTERVAL);
    }
  }

  /** Renewal times are drawn from a non-empty range that lies in the future. */
  lemma BufferedRange(flow: FlowControl, p99: nat)
    requires AllowedLease(flow)
    ensures 8000 <= BufferedMillis(LeaseSecs(flow, p99)) < LeaseSecs(flow, p99) * 1000
  {
    FifthOf(LeaseSecs(flow, p99));
    LeaseIsClampedRoundUp(flow, p99);
  }
}
