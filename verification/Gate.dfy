/** The gate that waits for a number of consecutive successful probes before a deadline. */
module Gate {

  /** One pass of the loop: the clock reading that decides whether to probe, and how the probe would end. */
  datatype Tick = Tick(reading: real, success: bool)

  datatype Result = Ready(attempts: nat, sleeps: nat) | TimedOut(attempts: nat) | Waiting | Rejected

  /** The first n attempts were all begun by the deadline. */
  ghost predicate InTime(ticks: seq<Tick>, deadline: real, n: nat)
  {
    n <= |ticks| && forall i | 0 <= i < n :: ticks[i].reading <= deadline
  }

  /** The last k of the first n attempts succeeded. */
  ghost predicate Window(ticks: seq<Tick>, k: nat, n: nat)
  {
    k <= n <= |ticks| && forall i | n - k <= i < n :: ticks[i].success
  }

  /** n is the least number of attempts that ends in a window, and they were begun in time. */
  ghost predicate FirstWindow(ticks: seq<Tick>, deadline: real, k: nat, n: nat)
  {
    n >= 1 && InTime(ticks, deadline, n) && Window(ticks, k, n) && forall m | 1 <= m < n :: !Window(ticks, k, m)
  }

  /** The n attempts begun in time complete no window, and the next reading is past the deadline. */
  ghost predicate Late(ticks: seq<Tick>, deadline: real, k: nat, n: nat)
  {
    && n < |ticks| && InTime(ticks, deadline, n) && ticks[n].reading > deadline
    && forall m | 1 <= m <= n :: !Window(ticks, k, m)
  }

  /** A window of less than one success is rejected. Else, for every sequence of readings and outcomes: ready exactly at
      the first window, after one sleep less than attempts; timed out exactly when no attempt begun by the deadline
      completes a window. */
  method WaitForGate(ticks: seq<Tick>, deadline: real, k: int) returns (r: Result)
    ensures r == Rejected <==> k < 1
    ensures k >= 1 ==> forall n :: r.Ready? && r.attempts == n <==> FirstWindow(ticks, deadline, k, n)
    ensures k >= 1 ==> forall n :: r.TimedOut? && r.attempts == n <==> Late(ticks, deadline, k, n)
    ensures r.Ready? ==> r.sleeps == r.attempts - 1
  {
    if k < 1 {
      return Rejected;
    }
    var successes, attempt, sleeps := 0, 0, 0;
    while attempt < |ticks| && ticks[attempt].reading <= deadline
      invariant InTime(ticks, deadline, attempt) && sleeps == attempt
      invariant forall m | 1 <= m <= attempt :: !Window(ticks, k, m)
      invariant successes < k && successes <= attempt
      invariant forall i | attempt - successes <= i < attempt :: ticks[i].success
      invariant successes < attempt ==> !ticks[attempt - successes - 1].success
    {
      attempt := attempt + 1;
      if ticks[attempt - 1].success {
        successes := successes + 1;
        if successes >= k {
          assert FirstWindow(ticks, deadline, k, attempt);
          OnlyOneEnd(ticks, deadline, k, attempt);
          return Ready(attempt, sleeps);
        }
      } else {
        successes := 0;
      }
      assert !Window(ticks, k, attempt);
      sleeps := sleeps + 1;
    }
    if attempt < |ticks| {
      assert Late(ticks, deadline, k, attempt);
      OnlyOneEnd(ticks, deadline, k, attempt);
      r := TimedOut(attempt);
    } else {
      r := Waiting;
    }
  }

  /** A run ends in one way and at one attempt only. */
  lemma OneEnd(ticks: seq<Tick>, deadline: real, k: nat, m: nat, n: nat)
    ensures FirstWindow(ticks, deadline, k, m) && FirstWindow(ticks, deadline, k, n) ==> m == n
    ensures Late(ticks, deadline, k, m) && Late(ticks, deadline, k, n) ==> m == n
    ensures !(FirstWindow(ticks, deadline, k, m) && Late(ticks, deadline, k, n))
  {
    if FirstWindow(ticks, deadline, k, m) && FirstWindow(ticks, deadline, k, n) {
      assert Window(ticks, k, m) && Window(ticks, k, n);
    }
    if FirstWindow(ticks, deadline, k, m) {
      assert Window(ticks, k, m) && InTime(ticks, deadline, m);
    }
  }

  lemma OnlyOneEnd(ticks: seq<Tick>, deadline: real, k: nat, n: nat)
    ensures FirstWindow(ticks, deadline, k, n) ==> forall m: nat :: FirstWindow(ticks, deadline, k, m) <==> m == n
    ensures FirstWindow(ticks, deadline, k, n) ==> forall m: nat :: !Late(ticks, deadline, k, m)
    ensures Late(ticks, deadline, k, n) ==> forall m: nat :: Late(ticks, deadline, k, m) <==> m == n
    ensures Late(ticks, deadline, k, n) ==> forall m: nat :: !FirstWindow(ticks, deadline, k, m)
  {
    forall m: nat
      ensures FirstWindow(ticks, deadline, k, n) ==>
        (FirstWindow(ticks, deadline, k, m) <==> m == n) && !Late(ticks, deadline, k, m)
      ensures Late(ticks, deadline, k, n) ==>
        (Late(ticks, deadline, k, m) <==> m == n) && !FirstWindow(ticks, deadline, k, m)
    {
      OneEnd(ticks, deadline, k, n, m);
      OneEnd(ticks, deadline, k, m, n);
    }
  }
}
