/** The millisecond clock of the device is a 32-bit counter that wraps.
    Elapsed time is the wrapping difference of two readings; the interval
    gates and the heartbeat timeout are comparisons against it. */
module Timing {
  import opened CanTypes

  const ClockModulus: int := 0x1_0000_0000

  /** The reading `d` milliseconds after `t`. */
  function Later(t: uint32, d: nat): uint32 {
    ((t as int + d) % ClockModulus) as uint32
  }

  /** Milliseconds from `start` to `now` on the wrapping clock. */
  function Elapsed(now: uint32, start: uint32): (d: uint32)
    ensures Later(start, d as nat) == now
  {
    ((now as int - start as int) % ClockModulus) as uint32
  }

  /** Elapsed undoes Later for any span the clock can represent. */
  lemma ElapsedLater(t: uint32, d: uint32)
    ensures Elapsed(Later(t, d as nat), t) == d
  {
  }

  /** A gate's Chrono: it has passed `interval` once that many
      milliseconds have elapsed since its last restart. */
  predicate HasPassed(now: uint32, start: uint32, interval: uint32): (r: bool)
    ensures start <= now ==> (r <==> now as int - start as int >= interval as int)
  {
    Elapsed(now, start) >= interval
  }

  /** The timeout test of checkOnlineStatus as written: the 32-bit sum
      `lastRemoteHeartbeatMillis + threshold` wraps before it is compared. */
  predicate TimedOutAsWritten(last: uint32, threshold: uint32, now: uint32): (r: bool)
    ensures last as int + threshold as int < ClockModulus ==> (r <==> now as int - last as int > threshold as int)
  {
    (last as int + threshold as int) % ClockModulus < now as int
  }

  /** The timeout test with the wrap-safe difference: more than
      `threshold` milliseconds since the last remote heartbeat. */
  predicate TimedOut(last: uint32, threshold: uint32, now: uint32): (r: bool)
    ensures last <= now ==> (r <==> now as int - last as int > threshold as int)
    ensures now == last ==> !r
  {
    Elapsed(now, last) > threshold
  }

  /** The presence timeout: `d` milliseconds after the last heartbeat the
      device counts as timed out exactly when `d` exceeds the threshold,
      wherever on the clock the heartbeat fell. */
  lemma TimedOutExactly(last: uint32, threshold: uint32, d: uint32)
    ensures TimedOut(last, threshold, Later(last, d as nat)) <==> d > threshold
  {
    ElapsedLater(last, d);
  }

  /** Away from the wrap of the clock, the test as written and the
      wrap-safe test agree. */
  lemma AsWrittenAgreesWithoutWrap(last: uint32, threshold: uint32, now: uint32)
    requires last as int + threshold as int < ClockModulus
    requires last <= now
    ensures TimedOutAsWritten(last, threshold, now) <==> TimedOut(last, threshold, now)
  {
  }

  /** As written, a heartbeat 16 ms before the clock wraps makes the device
      time out one millisecond later, although the threshold is 32 ms. */
  lemma AsWrittenTimesOutEarly()
    ensures TimedOutAsWritten(0xFFFF_FFF0, 0x20, 0xFFFF_FFF1)
    ensures !TimedOut(0xFFFF_FFF0, 0x20, 0xFFFF_FFF1)
  {
  }

  /** As written, after a heartbeat 40 ms before the clock wraps, the sum
      test fires only in the 7 ms window from 0xFFFF_FFF9 to the wrap. Checks
      10 ms apart at 0xFFFF_FFF8 and 0x2 both miss it, although the device is
      timed out at 0x2 (42 ms against a 32 ms threshold). From there the sum
      test keeps it online until the clock comes round to the sum again, about
      49.7 days later. */
  lemma AsWrittenTimesOutLate()
    ensures TimedOut(0xFFFF_FFD8, 0x20, 0x2)
    ensures !TimedOutAsWritten(0xFFFF_FFD8, 0x20, 0xFFFF_FFF8) && !TimedOutAsWritten(0xFFFF_FFD8, 0x20, 0x2)
    ensures forall now: uint32 :: now <= 0xFFFF_FFF8 ==> !TimedOutAsWritten(0xFFFF_FFD8, 0x20, now)
    ensures forall now: uint32 :: 0xFFFF_FFF9 <= now ==> TimedOutAsWritten(0xFFFF_FFD8, 0x20, now)
  {
  }
}
