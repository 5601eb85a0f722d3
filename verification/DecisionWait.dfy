/**
 The blocking wait on a one-way-door record: an acknowledgement phase, then a
 poll every three seconds until the deadline, against a record whose Redis key
 lives 25 hours while pending and 10 minutes once decided
 (packages/agent/src/one-way-door.ts). Times are milliseconds.
 */
module DecisionWait {
  import opened Wrappers

  const HOUR := 3_600_000
  const DEFAULT_ESCALATION_TIMEOUT_HOURS := 24
  const OWD_TTL := (DEFAULT_ESCALATION_TIMEOUT_HOURS + 1) * HOUR
  const DECIDED_TTL := 600_000
  const ACK_POLL_INTERVAL := 10_000
  const ACK_TIMEOUT := 60_000
  const POLL := 3_000

  datatype Outcome = Approved | Rejected | TimedOut

  datatype Resolution = Resolution(at: int, approved: bool)

  /** What happens to one record: when it is created, and when an operator decides it, if ever. */
  datatype Timeline = Timeline(createdAt: int, resolution: Option<Resolution>)

  datatype Stored = Pending | Decided(approved: bool)

  predicate Resolved(line: Timeline, now: int) {
    line.resolution.Some? && line.resolution.value.at <= now
  }

  /** `getDecision`: what Redis holds under the record's key at time `now`. */
  function GetDecision(line: Timeline, now: int): Option<Stored> {
    if Resolved(line, now) then
      if now < line.resolution.value.at + DECIDED_TTL then Some(Decided(line.resolution.value.approved)) else None
    else if line.createdAt <= now < line.createdAt + OWD_TTL then Some(Pending)
    else None
  }

  function OutcomeOf(approved: bool): Outcome {
    if approved then Approved else Rejected
  }

  /** `lag(k)` is how late the k-th timer of the wait fires. */
  ghost predicate Punctual(lag: nat -> nat, maxLag: nat) {
    forall k: nat :: lag(k) <= maxLag
  }

  /** The longest the wait goes without looking at the record: the acknowledgement phase and a poll. */
  function MaxGap(maxLag: nat): nat {
    ACK_TIMEOUT + ACK_POLL_INTERVAL + POLL + maxLag
  }

  /** Polls for the delivery acknowledgement, which appears at `ackAt` if ever. */
  method PollForDeliveryAck(now: int, ackAt: Option<int>, lag: nat -> nat, ghost maxLag: nat)
    returns (delivered: bool, later: int)
    ensures delivered <==> ackAt.Some? && ackAt.value <= later && later < now + 60_000
    ensures now <= later
    ensures !delivered ==> now + 60_000 <= later
    ensures Punctual(lag, maxLag) ==> later < now + 70_000 + maxLag
    ensures ackAt.Some? && Punctual(lag, maxLag) ==> later < (if ackAt.value < now then now else ackAt.value) + 10_000 + maxLag
  {
    later := now;
    var timer: nat := 0;
    while later < now + ACK_TIMEOUT
      invariant now <= later
      invariant ackAt.Some? && Punctual(lag, maxLag) ==> later < (if ackAt.value < now then now else ackAt.value) + 10_000 + maxLag
      invariant Punctual(lag, maxLag) ==> later < now + ACK_TIMEOUT + ACK_POLL_INTERVAL + maxLag
      decreases now + ACK_TIMEOUT - later
    {
      if ackAt.Some? && ackAt.value <= later {
        return true, later;
      }
      later := later + ACK_POLL_INTERVAL + lag(timer);
      timer := timer + 1;
    }
    delivered := false;
  }

  method WaitForDecision(line: Timeline, startedAt: int, timeout: nat, ackAt: Option<int>,
                         ackLag: nat -> nat, lag: nat -> nat, ghost maxLag: nat)
    returns (outcome: Outcome, endedAt: int)
    // A decision is never invented.
    ensures outcome != TimedOut ==>
              Resolved(line, endedAt) && outcome == (if line.resolution.value.approved then Approved else Rejected) && endedAt < startedAt + timeout
    // A decision made one gap before the deadline is returned, also one made before the wait began,
    // unless it was then so old that its record could expire before the first look.
    ensures Punctual(ackLag, maxLag) && Punctual(lag, maxLag) && 73_000 + maxLag <= 600_000 && 73_000 + maxLag <= timeout
            && line.createdAt <= startedAt && startedAt + timeout <= line.createdAt + 90_000_000
            && line.resolution.Some? && startedAt + 73_000 + maxLag <= line.resolution.value.at + 600_000
            && line.resolution.value.at + 73_000 + maxLag <= startedAt + timeout
            ==> outcome == (if line.resolution.value.approved then Approved else Rejected)
                && endedAt <= (if line.resolution.value.at < startedAt then startedAt else line.resolution.value.at) + 73_000 + maxLag
    // A decision ten minutes old when the wait begins is answered 'timeout'.
    ensures line.resolution.Some? && line.resolution.value.at + 600_000 <= startedAt ==> outcome == TimedOut
    // A record that is there is not looked at again before its delivery is acknowledged, or a minute has passed.
    ensures GetDecision(line, startedAt).Some? ==> startedAt + 60_000 <= endedAt || (ackAt.Some? && ackAt.value <= endedAt)
    // The wait ends within a gap of its deadline.
    ensures Punctual(ackLag, maxLag) && Punctual(lag, maxLag) ==> endedAt < startedAt + timeout + 73_000 + maxLag
    // A pending record times out at the deadline, or when its key expires if that is earlier.
    ensures line.createdAt <= startedAt && !Resolved(line, endedAt) ==>
              outcome == TimedOut && (startedAt + timeout <= endedAt || line.createdAt + 90_000_000 <= endedAt)
  {
    var deadline := startedAt + timeout;
    var now := startedAt;
    if GetDecision(line, now).Some? {
      var delivered;
      delivered, now := PollForDeliveryAck(now, ackAt, ackLag, maxLag);
    }
    var timer: nat := 0;
    ghost var looked := startedAt - 1;
    while now < deadline
      invariant startedAt <= now && startedAt - 1 <= looked
      invariant GetDecision(line, startedAt).Some? ==> startedAt + 60_000 <= now || (ackAt.Some? && ackAt.value <= now)
      invariant Punctual(ackLag, maxLag) && Punctual(lag, maxLag) ==> now < startedAt + timeout + 73_000 + maxLag
      invariant looked == startedAt - 1 || !Resolved(line, looked)
      invariant Punctual(ackLag, maxLag) && Punctual(lag, maxLag) ==> now <= looked + MaxGap(maxLag)
      decreases deadline - now
    {
      var current := GetDecision(line, now);
      if current.None? {
        return TimedOut, now;
      }
      if current.value.Decided? {
        return OutcomeOf(current.value.approved), now;
      }
      looked := now;
      now := now + POLL + lag(timer);
      timer := timer + 1;
    }
    return TimedOut, now;
  }

  /** The hour of slack: a default-length wait begun within it ends before the pending key does. */
  lemma PendingOutlivesWait(line: Timeline, startedAt: int, timeout: nat, now: int)
    requires line.createdAt <= startedAt <= line.createdAt + HOUR
    requires timeout <= DEFAULT_ESCALATION_TIMEOUT_HOURS * HOUR
    requires startedAt <= now < startedAt + timeout && !Resolved(line, now)
    ensures GetDecision(line, now) == Some(Pending)
    ensures startedAt + timeout <= line.createdAt + OWD_TTL
  {
  }

  /** A pending record lasts to the deadline exactly when the wait ends within the key's life. */
  lemma PendingLastsIff(createdAt: int, startedAt: int, timeout: nat)
    requires createdAt <= startedAt && 0 < timeout
    ensures (forall now :: startedAt <= now < startedAt + timeout ==>
               GetDecision(Timeline(createdAt, None), now) == Some(Pending))
            <==> startedAt + timeout <= createdAt + 90_000_000
  {
    if startedAt + timeout > createdAt + OWD_TTL {
      assert GetDecision(Timeline(createdAt, None), startedAt + timeout - 1) == None;
    }
  }
}
