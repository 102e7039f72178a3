/**
 * `wait_until_complete`: poll a file until two consecutive readings report the
 * same positive size, giving up when the file disappears or the time budget is
 * spent. The file system and the clock are replaced by one reading per poll and
 * a clock that advances by the poll interval after each poll.
 */
module Stability {

  /** Seconds slept after each poll that does not end the wait. */
  const POLL_INTERVAL: nat := 2

  /** Time budget of the wait when the caller gives none. */
  const DEFAULT_TIMEOUT: int := 120

  /** What one poll sees: no file, or a file of some size in bytes. */
  datatype Observation = Missing | Present(size: nat)

  /** The verdict of a wait and the number of polls it made. */
  datatype WaitResult = WaitResult(stable: bool, polls: nat)

  /**
   * How many polls fit in the budget: a poll starts at each elapsed time
   * 0, POLL_INTERVAL, 2 * POLL_INTERVAL, ... that is still below the timeout.
   */
  function PollBudget(timeout: int): (n: nat)
    ensures n * POLL_INTERVAL >= timeout
    ensures n == 0 || (n - 1) * POLL_INTERVAL < timeout
  {
    if timeout <= 0 then 0 else (timeout + 1) / 2
  }

  /** Poll `i` sees the same positive size as the poll before it. */
  predicate StableAt(obs: seq<Observation>, i: nat)
    requires i < |obs|
  {
    0 < i && obs[i].Present? && obs[i].size > 0 && obs[i - 1] == obs[i]
  }

  /** Poll `i` ends the wait: the file is gone, or it is stable. */
  predicate EndsWait(obs: seq<Observation>, i: nat)
    requires i < |obs|
  {
    obs[i].Missing? || StableAt(obs, i)
  }

  /**
   * Poll `i` is stable exactly when it and the poll before it both find the file
   * with one positive size: `last_size` holds the previous reading.
   */
  lemma StableMeansRepeatedPositiveSize(obs: seq<Observation>, i: nat)
    requires i < |obs|
    ensures StableAt(obs, i) <==>
      0 < i && exists size :: size > 0 && obs[i - 1] == Present(size) && obs[i] == Present(size)
  {
    if StableAt(obs, i) {
      assert obs[i - 1] == Present(obs[i].size);
    }
  }

  /**
   * A missing file always ends the wait; a present one ends it only at a poll
   * after the first, repeating the previous positive size. So the first poll
   * ends the wait only when the file is missing (`last_size` starts at -1).
   */
  lemma EndsWaitCases(obs: seq<Observation>, i: nat)
    requires i < |obs|
    ensures obs[i].Missing? ==> EndsWait(obs, i)
    ensures EndsWait(obs, i) && obs[i].Present? ==> 0 < i && obs[i].size > 0 && obs[i - 1] == obs[i]
    ensures EndsWait(obs, 0) <==> obs[0].Missing?
  {
  }

  /** The first poll in [from, budget) that ends the wait, or `budget` if none does. */
  function FirstEnd(obs: seq<Observation>, from: nat, budget: nat): (e: nat)
    requires from <= budget <= |obs|
    ensures from <= e <= budget
    ensures e < budget ==> EndsWait(obs, e)
    ensures forall j :: from <= j < e ==> !EndsWait(obs, j)
    decreases budget - from
  {
    if from == budget then budget
    else if EndsWait(obs, from) then from
    else FirstEnd(obs, from + 1, budget)
  }

  /**
   * The outcome of waiting with time budget `timeout` on the readings `obs`.
   * The wait reports stable only at a poll that repeats the previous positive
   * size (so never at the first poll), reports not stable at a poll that finds the
   * file missing, and otherwise polls until the budget is spent.
   */
  function Wait(obs: seq<Observation>, timeout: int): (w: WaitResult)
    requires PollBudget(timeout) <= |obs|
    ensures w.polls <= PollBudget(timeout)
    ensures forall j :: 0 <= j < w.polls - 1 ==> !EndsWait(obs, j)
    ensures w.stable ==> 2 <= w.polls && StableAt(obs, w.polls - 1)
    ensures !w.stable ==> forall j :: 0 <= j < w.polls ==> !StableAt(obs, j)
    ensures !w.stable && w.polls < PollBudget(timeout) ==> 0 < w.polls && obs[w.polls - 1].Missing?
  {
    var budget := PollBudget(timeout);
    var e := FirstEnd(obs, 0, budget);
    assert forall j :: 0 <= j < e ==> !StableAt(obs, j) by {
      forall j | 0 <= j < e ensures !StableAt(obs, j) { assert !EndsWait(obs, j); }
    }
    if e == budget then WaitResult(false, budget) else WaitResult(obs[e].Present?, e + 1)
  }

  /** The polling loop of `wait_until_complete`, with `last_size` starting at -1. */
  method WaitUntilComplete(obs: seq<Observation>, timeout: int) returns (stable: bool, polls: nat)
    requires PollBudget(timeout) <= |obs|
    ensures WaitResult(stable, polls) == Wait(obs, timeout)
  {
    var elapsed := 0;
    var lastSize: int := -1;
    polls := 0;
    while elapsed < timeout
      invariant elapsed == polls * POLL_INTERVAL
      invariant polls <= PollBudget(timeout)
      invariant forall j :: 0 <= j < polls ==> !EndsWait(obs, j)
      invariant polls == 0 ==> lastSize == -1
      invariant polls > 0 ==> obs[polls - 1].Present? && lastSize == obs[polls - 1].size
      decreases timeout - elapsed
    {
      var reading := obs[polls];
      polls := polls + 1;
      if reading.Missing? {
        assert EndsWait(obs, polls - 1);
        return false, polls;
      }
      if reading.size == lastSize && reading.size > 0 {
        assert StableAt(obs, polls - 1) && EndsWait(obs, polls - 1);
        return true, polls;
      }
      lastSize := reading.size;
      elapsed := elapsed + POLL_INTERVAL;
    }
    return false, polls;
  }

  /** With the default budget the waiter polls at most 60 times. */
  lemma DefaultBudgetIsSixtyPolls()
    ensures PollBudget(DEFAULT_TIMEOUT) == 60
  {
  }

  /** Once a poll finds the file missing, no later reading is taken. */
  lemma NoPollAfterMissing(obs: seq<Observation>, timeout: int, i: nat)
    requires PollBudget(timeout) <= |obs|
    requires i < PollBudget(timeout) && obs[i].Missing?
    ensures Wait(obs, timeout).polls <= i + 1
  {
    assert EndsWait(obs, i);
  }

  /** FirstEnd looks at no reading past the poll it returns. */
  lemma {:induction false} FirstEndOnPrefix(obs: seq<Observation>, obs': seq<Observation>, from: nat, budget: nat)
    requires from <= budget <= |obs| && budget <= |obs'|
    requires var e := FirstEnd(obs, from, budget);
      forall j :: 0 <= j <= e && j < budget ==> obs'[j] == obs[j]
    ensures FirstEnd(obs', from, budget) == FirstEnd(obs, from, budget)
    decreases budget - from
  {
    if from < budget {
      assert obs'[from] == obs[from];
      if 0 < from {
        assert obs'[from - 1] == obs[from - 1];
      }
      assert EndsWait(obs', from) == EndsWait(obs, from);
      if !EndsWait(obs, from) {
        FirstEndOnPrefix(obs, obs', from + 1, budget);
      }
    }
  }

  /** The outcome depends only on the readings of the polls actually made. */
  lemma WaitIgnoresLaterReadings(obs: seq<Observation>, obs': seq<Observation>, timeout: int)
    requires PollBudget(timeout) <= |obs| && PollBudget(timeout) <= |obs'|
    requires forall j :: 0 <= j < Wait(obs, timeout).polls ==> obs'[j] == obs[j]
    ensures Wait(obs', timeout) == Wait(obs, timeout)
  {
    FirstEndOnPrefix(obs, obs', 0, PollBudget(timeout));
  }

  /** A file that stays empty is never reported stable: the budget runs out. */
  lemma EmptyFileTimesOut(obs: seq<Observation>, timeout: int)
    requires PollBudget(timeout) <= |obs|
    requires forall i :: 0 <= i < PollBudget(timeout) ==> obs[i] == Present(0)
    ensures Wait(obs, timeout) == WaitResult(false, PollBudget(timeout))
  {
  }

  /** A file that grows between every two polls is never reported stable. */
  lemma GrowingFileTimesOut(obs: seq<Observation>, timeout: int)
    requires PollBudget(timeout) <= |obs|
    requires forall i :: 0 <= i < PollBudget(timeout) ==> obs[i].Present?
    requires forall i :: 0 < i < PollBudget(timeout) ==> obs[i - 1].size < obs[i].size
    ensures Wait(obs, timeout) == WaitResult(false, PollBudget(timeout))
  {
  }

  /**
   * A file that is present throughout and shows the same positive size at polls
   * k and k + 1 is reported stable, by poll k + 1 at the latest.
   */
  lemma SettledFileIsStable(obs: seq<Observation>, timeout: int, k: nat)
    requires PollBudget(timeout) <= |obs|
    requires k + 1 < PollBudget(timeout)
    requires forall i :: 0 <= i <= k + 1 ==> obs[i].Present?
    requires obs[k].size > 0 && obs[k + 1] == obs[k]
    ensures Wait(obs, timeout).stable && Wait(obs, timeout).polls <= k + 2
  {
    assert EndsWait(obs, k + 1);
  }

  /** A file written in one go is reported stable at the second poll. */
  lemma OneShotWriteIsStableAtSecondPoll(obs: seq<Observation>, n: nat)
    requires PollBudget(DEFAULT_TIMEOUT) <= |obs|
    requires n > 0 && obs[0] == Present(n) && obs[1] == Present(n)
    ensures Wait(obs, DEFAULT_TIMEOUT) == WaitResult(true, 2)
  {
    assert !EndsWait(obs, 0);
    assert EndsWait(obs, 1);
  }
}
