/** The staking and delegation windows, in Unix seconds, and when the calls that open them return. */
module StakingWindows {
  /** Durations and clock readings are in nanoseconds. */
  const SECOND: int := 1_000_000_000
  const HOUR: int := 3_600_000_000_000
  const STAKING_DELAY: int := 20_000_000_000
  const STAKING_PERIOD: int := 259_200_000_000_000
  const DELEGATION_DELAY: int := 20_000_000_000
  const DELEGATION_PERIOD: int := 129_600_000_000_000
  const SYNCHRONY_DELAY: int := 3_000_000_000

  /** The second that a clock reading falls in. */
  function Unix(t: int): int {
    t / SECOND
  }

  /** What a staking call does: the window it asks for, and the clock when it returns. */
  datatype Window = Window(startTime: int, endTime: int)

  /** Returns no earlier than asked, by `late`; a sleep of a negative duration returns at once. */
  function WakeAfter(now: int, duration: int, late: nat): int {
    now + (if duration < 0 then 0 else duration) + late
  }

  /** `now` is the clock at the call, `accepted` when the transaction was accepted. */
  method AddValidatorToPrimaryNetwork(now: int, accepted: int, late: nat) returns (window: Window, returned: int)
    requires now <= accepted
    ensures window.endTime - window.startTime == 72 * 3600
    ensures window.startTime == (now + 20_000_000_000) / 1_000_000_000
    ensures now + 23_000_000_000 <= returned && accepted <= returned
    ensures accepted <= now + 23_000_000_000 && late == 0 ==> returned == now + 23_000_000_000
  {
    var stakingStartTime := now + STAKING_DELAY;
    var startTime := Unix(stakingStartTime);
    var endTime := Unix(stakingStartTime + STAKING_PERIOD);
    WholeSeconds(stakingStartTime, 259_200);
    window := Window(startTime, endTime);
    var untilStart := stakingStartTime - accepted;
    returned := WakeAfter(accepted, untilStart + SYNCHRONY_DELAY, late);
  }

  method AddDelegatorToPrimaryNetwork(now: int, accepted: int, late: nat) returns (window: Window, returned: int)
    requires now <= accepted
    ensures window.endTime - window.startTime == 36 * 3600
    ensures window.startTime == (now + 20_000_000_000) / 1_000_000_000
    ensures now + 23_000_000_000 <= returned && accepted <= returned
    ensures accepted <= now + 23_000_000_000 && late == 0 ==> returned == now + 23_000_000_000
  {
    var delegatorStartTime := now + DELEGATION_DELAY;
    var startTime := Unix(delegatorStartTime);
    var endTime := Unix(delegatorStartTime + DELEGATION_PERIOD);
    WholeSeconds(delegatorStartTime, 129_600);
    window := Window(startTime, endTime);
    var untilStart := delegatorStartTime - accepted;
    returned := WakeAfter(accepted, untilStart + SYNCHRONY_DELAY, late);
  }

  /** Truncation to seconds commutes with adding whole seconds. */
  lemma {:induction false} WholeSeconds(t: int, n: int)
    ensures Unix(t + n * SECOND) == Unix(t) + n
  {
    var q, r := t / SECOND, t % SECOND;
    assert t + n * SECOND == (q + n) * SECOND + r;
  }

  lemma {:induction false} UnixMonotone(t: int, u: int)
    requires t <= u
    ensures Unix(t) <= Unix(u)
  {
  }

  /** A delegation requested after the validator call has returned, so at least 23 seconds after it began, lies
      inside the validation window exactly when the delegation starts, in seconds, at most 36 hours after the
      validation; requesting it within 36 hours less 20 seconds of the validation's start is early enough. */
  lemma {:induction false} NestingExactly(validator: Window, delegator: Window, validatorNow: int, delegatorNow: int)
    requires validator.startTime == (validatorNow + 20_000_000_000) / 1_000_000_000
    requires validator.endTime == validator.startTime + 259_200
    requires delegator.startTime == (delegatorNow + 20_000_000_000) / 1_000_000_000
    requires delegator.endTime == delegator.startTime + 129_600
    requires validatorNow + 23_000_000_000 <= delegatorNow
    ensures validator.startTime + 23 <= delegator.startTime
    ensures validator.startTime <= delegator.startTime && delegator.endTime <= validator.endTime <==>
              delegator.startTime <= validator.startTime + 129_600
    ensures delegatorNow <= (validatorNow + 20_000_000_000) + 129_600_000_000_000 - 20_000_000_000 ==>
              delegator.endTime <= validator.endTime
  {
    var start := validatorNow + STAKING_DELAY;
    WholeSeconds(start, 23);
    UnixMonotone(start + 23 * SECOND, delegatorNow + DELEGATION_DELAY);
    if delegatorNow <= start + 36 * HOUR - DELEGATION_DELAY {
      WholeSeconds(start, 129_600);
      UnixMonotone(delegatorNow + DELEGATION_DELAY, start + 129_600 * SECOND);
    }
  }
}
