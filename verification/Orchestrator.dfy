/** The registration orchestrator: its polling loop as a machine over ticks, and as an object that runs it. */
module Orchestrator {
  import opened Text
  import opened Json
  import opened Evidence
  import opened Artifacts
  import R = Registration

  // ---- One turn of the loop ------------------------------------------------------------

  datatype Control =
    | Settling(attempts: nat, backoff: int)
    | Watching(attempts: nat)

  /** A collection and the verdict on it. */
  datatype Judged = Judged(outcome: Outcome, verdict: R.Evaluation)

  /** What one turn observes: a collection, the time left to the deadline, and the collection of a timeout. */
  datatype Tick = Tick(first: Judged, remaining: real, retry: Judged)

  ghost predicate HonestVerdict(cfg: Config, j: Judged, timedOut: bool) { j.verdict == Judge(cfg, j.outcome, timedOut) }

  /** The verdicts are those of the collections; the retry is judged as timed out. */
  ghost predicate Honest(cfg: Config, t: Tick)
  {
    && HonestVerdict(cfg, t.first, false)
    && (t.remaining <= 0.0 ==> HonestVerdict(cfg, t.retry, true))
  }

  function Min(a: int, b: int): int { if a < b then a else b }

  function MinReal(a: real, b: real): real { if a < b then a else b }

  function Record(j: Judged, attempt: int, phase: Phase): Write { Write(j.outcome, j.verdict, attempt, phase) }

  function Turn(cfg: Config, c: Control, t: Tick): (Control, seq<Write>)
  {
    match c
    case Settling(n, backoff) =>
      var w := Record(t.first, n + 1, Settle);
      if Passes(w) then (Watching(n + 1), [w])
      else if t.remaining <= 0.0 then (Watching(n + 1), [w, Record(t.retry, n + 1, Timeout)])
      else (Settling(n + 1, Min(backoff * 2, cfg.maxBackoff)), [w])
    case Watching(n) =>
      (Watching(n + 1), [Record(t.first, n + 1, SteadyState)])
  }

  datatype Progress = Progress(control: Control, writes: seq<Write>)

  function Started(cfg: Config): Progress { Progress(Settling(0, cfg.minBackoff), []) }

  function Advance(cfg: Config, p: Progress, t: Tick): Progress
  {
    var (c, ws) := Turn(cfg, p.control, t);
    Progress(c, p.writes + ws)
  }

  function Run(cfg: Config, ticks: seq<Tick>): Progress
  {
    if ticks == [] then Started(cfg)
    else Advance(cfg, Run(cfg, ticks[..|ticks| - 1]), ticks[|ticks| - 1])
  }

  lemma RunStep(cfg: Config, ticks: seq<Tick>, t: Tick)
    ensures Run(cfg, ticks + [t]) == Advance(cfg, Run(cfg, ticks), t)
  {
    assert (ticks + [t])[..|ticks|] == ticks;
  }

  lemma SettlingStarts(cfg: Config)
    ensures Run(cfg, []) == Progress(Settling(0, cfg.minBackoff), []) && BackoffAt(cfg, 0) == cfg.minBackoff
  {
  }

  lemma NextBackoff(cfg: Config, k: nat)
    ensures BackoffAt(cfg, k + 1) == Min(BackoffAt(cfg, k) * 2, cfg.maxBackoff)
  {
  }

  lemma SettlingPasses(cfg: Config, ticks: seq<Tick>, j: Judged)
    requires Run(cfg, ticks).control.Settling? && j.verdict.status == R.Pass
    ensures var p, n := Run(cfg, ticks), Run(cfg, ticks).control.attempts + 1;
      Run(cfg, ticks + [Tick(j, 1.0, j)]) == Progress(Watching(n), p.writes + [Record(j, n, Settle)])
  {
    RunStep(cfg, ticks, Tick(j, 1.0, j));
  }

  lemma SettlingTimesOut(cfg: Config, ticks: seq<Tick>, j: Judged, remaining: real, retry: Judged)
    requires Run(cfg, ticks).control.Settling? && j.verdict.status == R.Fail && remaining <= 0.0
    ensures var p, n := Run(cfg, ticks), Run(cfg, ticks).control.attempts + 1;
      Run(cfg, ticks + [Tick(j, remaining, retry)]) ==
        Progress(Watching(n), p.writes + [Record(j, n, Settle), Record(retry, n, Timeout)])
  {
    RunStep(cfg, ticks, Tick(j, remaining, retry));
  }

  lemma SettlingGoesOn(cfg: Config, ticks: seq<Tick>, j: Judged, remaining: real)
    requires Run(cfg, ticks).control.Settling? && j.verdict.status == R.Fail && remaining > 0.0
    ensures var p, n := Run(cfg, ticks), Run(cfg, ticks).control.attempts + 1;
      Run(cfg, ticks + [Tick(j, remaining, j)]) ==
        Progress(Settling(n, Min(p.control.backoff * 2, cfg.maxBackoff)), p.writes + [Record(j, n, Settle)])
  {
    RunStep(cfg, ticks, Tick(j, remaining, j));
  }

  lemma WatchingGoesOn(cfg: Config, ticks: seq<Tick>, j: Judged)
    requires Run(cfg, ticks).control.Watching?
    ensures var p, n := Run(cfg, ticks), Run(cfg, ticks).control.attempts + 1;
      Run(cfg, ticks + [Tick(j, 1.0, j)]) == Progress(Watching(n), p.writes + [Record(j, n, SteadyState)])
  {
    RunStep(cfg, ticks, Tick(j, 1.0, j));
  }

  // ---- The shape of every run's event log ----------------------------------------------

  ghost predicate IsEvent(w: Write, phase: Phase, attempt: int) { w.phase == phase && w.attempt == attempt }

  /** Settle events 1..n of which only the last may pass; if it does not, one timeout event repeating n. */
  ghost predicate SettledPrefix(ws: seq<Write>, n: nat)
  {
    && 1 <= n <= |ws|
    && (forall i | 0 <= i < n :: IsEvent(ws[i], Settle, i + 1))
    && (forall i | 0 <= i < n - 1 :: !Passes(ws[i]))
    && (!Passes(ws[n - 1]) ==> n < |ws| && IsEvent(ws[n], Timeout, n))
  }

  ghost function SettleLength(ws: seq<Write>, n: nat): nat
    requires SettledPrefix(ws, n)
  {
    if Passes(ws[n - 1]) then n else n + 1
  }

  /** After settling, steady-state events numbered n+1, n+2 and so on. */
  ghost predicate SettledLog(ws: seq<Write>, n: nat, attempts: nat)
  {
    && SettledPrefix(ws, n)
    && attempts == n + |ws| - SettleLength(ws, n)
    && forall i | SettleLength(ws, n) <= i < |ws| :: IsEvent(ws[i], SteadyState, n + i + 1 - SettleLength(ws, n))
  }

  ghost predicate SettlingLog(ws: seq<Write>, attempts: nat)
  {
    |ws| == attempts && forall i | 0 <= i < attempts :: IsEvent(ws[i], Settle, i + 1) && !Passes(ws[i])
  }

  ghost predicate WellShaped(p: Progress)
  {
    match p.control
    case Settling(attempts, _) => SettlingLog(p.writes, attempts)
    case Watching(attempts) => exists n :: SettledLog(p.writes, n, attempts)
  }

  lemma TurnKeepsShape(cfg: Config, p: Progress, t: Tick)
    requires WellShaped(p)
    ensures WellShaped(Advance(cfg, p, t))
  {
    var q := Advance(cfg, p, t);
    match p.control {
      case Settling(attempts, _) =>
        if q.control.Watching? {
          assert SettledLog(q.writes, attempts + 1, attempts + 1);
        }
      case Watching(attempts) =>
        var n :| SettledLog(p.writes, n, attempts);
        assert SettledLog(q.writes, n, attempts + 1);
    }
  }

  /** Every run's event log has the announced shape, and every event reports its own collection. */
  lemma {:induction false} EveryRunIsWellShaped(cfg: Config, ticks: seq<Tick>)
    ensures WellShaped(Run(cfg, ticks))
  {
    if ticks != [] {
      EveryRunIsWellShaped(cfg, ticks[..|ticks| - 1]);
      TurnKeepsShape(cfg, Run(cfg, ticks[..|ticks| - 1]), ticks[|ticks| - 1]);
    }
  }

  ghost predicate AllHonest(cfg: Config, ticks: seq<Tick>) { forall t | t in ticks :: Honest(cfg, t) }

  ghost predicate AllGenuine(cfg: Config, ws: seq<Write>) { forall w | w in ws :: Genuine(cfg, w) }

  lemma {:induction false} EveryWriteIsGenuine(cfg: Config, ticks: seq<Tick>)
    requires AllHonest(cfg, ticks)
    ensures AllGenuine(cfg, Run(cfg, ticks).writes)
  {
    if ticks != [] {
      EveryWriteIsGenuine(cfg, ticks[..|ticks| - 1]);
      assert Honest(cfg, ticks[|ticks| - 1]);
      TurnIsGenuine(cfg, Run(cfg, ticks[..|ticks| - 1]).control, ticks[|ticks| - 1]);
    }
  }

  lemma TurnIsGenuine(cfg: Config, c: Control, t: Tick)
    requires Honest(cfg, t)
    ensures AllGenuine(cfg, Turn(cfg, c, t).1)
  {
    hide Judge;
    forall w | w in Turn(cfg, c, t).1 ensures Genuine(cfg, w) {
      if w.phase == Timeout {
        RecordIsGenuine(cfg, t.retry, w.attempt, Timeout);
      } else {
        RecordIsGenuine(cfg, t.first, w.attempt, w.phase);
      }
    }
  }

  lemma RecordIsGenuine(cfg: Config, j: Judged, attempt: int, phase: Phase)
    requires attempt > 0 && HonestVerdict(cfg, j, phase == Timeout)
    ensures Genuine(cfg, Record(j, attempt, phase))
  {
  }

  /** `registration_timeout` occurs in no event but the timeout event, and there whenever it fails. */
  lemma TimeoutsOfEveryRun(cfg: Config, ticks: seq<Tick>)
    requires AllHonest(cfg, ticks)
    ensures forall w | w in Run(cfg, ticks).writes ::
      R.BlamesTimeout(w.verdict.taxonomy) <==> w.phase == Timeout && !Passes(w)
  {
    EveryWriteIsGenuine(cfg, ticks);
    forall w | w in Run(cfg, ticks).writes
      ensures R.BlamesTimeout(w.verdict.taxonomy) <==> w.phase == Timeout && !Passes(w)
    {
      TimeoutIsReportedByTheTimeoutEventOnly(cfg, w);
    }
  }

  /** After every prefix of the writes of every run the validator objects exactly to false passes. */
  lemma ValidatorAgreesThroughoutARun(cfg: Config, before: Bundle, ticks: seq<Tick>, k: nat)
    requires AllHonest(cfg, ticks) && 0 < k <= |Run(cfg, ticks).writes|
    requires before.coreReport.None? && before.operationalReport.None? && 0 <= cfg.minBackoff <= cfg.maxBackoff
    ensures var writes := Run(cfg, ticks).writes[..k];
      Consistent(Replay(cfg, before, writes)) <==>
        !Passes(writes[k - 1]) || R.ConnectedAreTheLdapIds(SnapshotOf(cfg, writes[k - 1].outcome))
  {
    EveryWriteIsGenuine(cfg, ticks);
    ValidatorAgreesOnEveryRun(cfg, before, Run(cfg, ticks).writes[..k]);
  }

  // ---- Backoff -------------------------------------------------------------------------

  /** The value of `backoff_seconds` after k sleeps. */
  function BackoffAt(cfg: Config, k: nat): int
  {
    if k == 0 then cfg.minBackoff else Min(BackoffAt(cfg, k - 1) * 2, cfg.maxBackoff)
  }

  function Pow2(k: nat): (p: nat)
    ensures p >= 1
  {
    if k == 0 then 1 else 2 * Pow2(k - 1)
  }

  lemma Doubled(a: nat, p: nat, m: nat, b: int)
    requires a <= m && b == Min(a * p, m)
    ensures Min(b * 2, m) == Min(a * (2 * p), m)
  {
    var x := a * p;
    assert a * (2 * p) == 2 * x;
  }

  /** The delays double from the minimum and stay at the maximum. */
  lemma {:induction false} BackoffDoublesUpToTheMaximum(cfg: Config, k: nat)
    requires 0 <= cfg.minBackoff <= cfg.maxBackoff
    ensures BackoffAt(cfg, k) == Min(cfg.minBackoff * Pow2(k), cfg.maxBackoff)
  {
    if k > 0 {
      BackoffDoublesUpToTheMaximum(cfg, k - 1);
      Doubled(cfg.minBackoff, Pow2(k - 1), cfg.maxBackoff, BackoffAt(cfg, k - 1));
    }
  }

  lemma {:induction false} Pow2Grows(j: nat, k: nat)
    requires j <= k
    ensures Pow2(j) <= Pow2(k)
  {
    if j < k { Pow2Grows(j, k - 1); }
  }

  function TotalBackoff(cfg: Config, k: nat): int
  {
    if k == 0 then 0 else TotalBackoff(cfg, k - 1) + BackoffAt(cfg, k - 1)
  }

  /** `j` is the last doubling that stays within the maximum. */
  ghost predicate IsLastDoubling(cfg: Config, j: nat)
  {
    cfg.minBackoff * Pow2(j) <= cfg.maxBackoff < cfg.minBackoff * Pow2(j + 1)
  }

  lemma BackoffReachesTheMaximum(cfg: Config, j: nat, k: nat)
    requires 1 <= cfg.minBackoff <= cfg.maxBackoff && IsLastDoubling(cfg, j)
    ensures BackoffAt(cfg, k) >= 1
    ensures k > j ==> BackoffAt(cfg, k) == cfg.maxBackoff
  {
    BackoffDoublesUpToTheMaximum(cfg, k);
    MulMonotone(1, Pow2(k), cfg.minBackoff);
    if k > j {
      Pow2Grows(j + 1, k);
      MulMonotone(Pow2(j + 1), Pow2(k), cfg.minBackoff);
    }
  }

  lemma OneMoreMaximum(n: int, m: int)
    ensures (n + 1) * m == n * m + m
  {
  }

  lemma {:induction false} TotalBackoffIsLarge(cfg: Config, j: nat, k: nat)
    requires 1 <= cfg.minBackoff <= cfg.maxBackoff && IsLastDoubling(cfg, j)
    ensures TotalBackoff(cfg, k) >= 0
    ensures k > j ==> TotalBackoff(cfg, k) >= (k - j - 1) * cfg.maxBackoff
  {
    hide BackoffAt, Pow2, IsLastDoubling;
    if k > 0 {
      TotalBackoffIsLarge(cfg, j, k - 1);
      BackoffReachesTheMaximum(cfg, j, k - 1);
      OneMoreMaximum(k - j - 2, cfg.maxBackoff);
    }
  }

  lemma {:induction false} Pow2Exceeds(k: nat)
    ensures Pow2(k) > k
  {
    if k > 0 { Pow2Exceeds(k - 1); }
  }

  /** With ordered positive bounds there is a last doubling. */
  lemma LastDoublingExists(cfg: Config)
    requires 1 <= cfg.minBackoff <= cfg.maxBackoff
    ensures exists j: nat :: IsLastDoubling(cfg, j)
  {
    Pow2Exceeds(cfg.maxBackoff);
    MulMonotone(1, cfg.minBackoff, Pow2(cfg.maxBackoff));
    DoublingsReach(cfg, cfg.maxBackoff);
  }

  lemma {:induction false} DoublingsReach(cfg: Config, k: nat)
    requires 1 <= cfg.minBackoff <= cfg.maxBackoff < cfg.minBackoff * Pow2(k)
    ensures exists j: nat :: IsLastDoubling(cfg, j)
  {
    if k > 0 && cfg.minBackoff * Pow2(k - 1) <= cfg.maxBackoff {
      assert IsLastDoubling(cfg, k - 1);
    } else if k > 0 {
      DoublingsReach(cfg, k - 1);
    }
  }

  /** The quotient rounded up, of a nonnegative number. */
  function CeilDiv(a: nat, b: nat): (q: nat)
    requires b > 0
    ensures (q - 1) * b < a <= q * b
  {
    (a + b - 1) / b
  }

  /** Sleeps whose full length fits before the deadline are few. */
  lemma SleepsAreFew(cfg: Config, j: nat, k: nat, limit: nat)
    requires 1 <= cfg.minBackoff <= cfg.maxBackoff && IsLastDoubling(cfg, j)
    requires TotalBackoff(cfg, k) < limit
    ensures k <= j + CeilDiv(limit, cfg.maxBackoff)
  {
    TotalBackoffIsLarge(cfg, j, k);
    var q := CeilDiv(limit, cfg.maxBackoff);
    if k > j + q {
      assert (k - j - 1) * cfg.maxBackoff >= q * cfg.maxBackoff by {
        assert k - j - 1 >= q;
        MulMonotone(q, k - j - 1, cfg.maxBackoff);
      }
    }
  }

  // ---- The world -----------------------------------------------------------------------

  /** What the orchestrator asks of the world, with the answer. */
  datatype Occurrence = Collects(outcome: Outcome) | Reads(at: real) | Sleeps(seconds: real)

  type Duration = d: real | d >= 0.0

  /** The clock, which never goes back, and the surfaces, which may answer anything. A collection takes the least time
      `lag`, if only 0. `trace` is the history. */
  class World {
    const lag: Duration
    var now: real
    ghost var trace: seq<Occurrence>

    constructor (lag: Duration)
      ensures trace == [] && this.lag == lag
    {
      this.lag := lag;
      now := *;
      trace := [];
    }

    method Pass()
      modifies this`now
      ensures now >= old(now)
    {
      var later: real := *;
      if later > now { now := later; }
    }

    method Monotonic() returns (t: real)
      modifies this
      ensures t == now >= old(now)
      ensures trace == old(trace) + [Reads(t)]
    {
      Pass();
      t := now;
      trace := trace + [Reads(t)];
    }

    method Sleep(d: real)
      requires d >= 0.0
      modifies this
      ensures now >= old(now) + d
      ensures trace == old(trace) + [Sleeps(d)]
    {
      now := now + d;
      Pass();
      trace := trace + [Sleeps(d)];
    }

    method CollectSnapshot() returns (o: Outcome)
      modifies this
      ensures now >= old(now) + lag
      ensures trace == old(trace) + [Collects(o)]
    {
      now := now + lag;
      Pass();
      o := *;
      trace := trace + [Collects(o)];
    }
  }

  // ---- What settling asks of the world -------------------------------------------------

  /** The sleep after the k-th failing tick: the doubling delay, clipped to the time left. */
  ghost function DelayOf(cfg: Config, k: nat, t: Tick): real { MinReal(BackoffAt(cfg, k) as real, t.remaining) }

  /** The k-th tick of settling begun at `start`: a collection; if it fails a clock reading, which is the deadline less
      the time remaining; then the sleep, or past the deadline one more collection. */
  ghost function TickTrace(cfg: Config, k: nat, t: Tick, start: real): seq<Occurrence>
  {
    [Collects(t.first.outcome)] +
    if t.first.verdict.status == R.Pass then []
    else [Reads(start + cfg.timeoutSeconds as real - t.remaining)] +
         if t.remaining <= 0.0 then [Collects(t.retry.outcome)] else [Sleeps(DelayOf(cfg, k, t))]
  }

  ghost function SettleTrace(cfg: Config, ticks: seq<Tick>, start: real): seq<Occurrence>
  {
    if ticks == [] then [Reads(start)] else
    var k := |ticks| - 1;
    SettleTrace(cfg, ticks[..k], start) + TickTrace(cfg, k, ticks[k], start)
  }

  /** A steady-state round: a collection and the interval. */
  ghost function SteadyTrace(ticks: seq<Tick>, interval: nat): seq<Occurrence>
  {
    if ticks == [] then [] else
    SteadyTrace(ticks[..|ticks| - 1], interval) +
    [Collects(ticks[|ticks| - 1].first.outcome), Sleeps(interval as real)]
  }

  lemma NothingTraced(cfg: Config, start: real)
    ensures SettleTrace(cfg, [], start) == [Reads(start)]
  {
  }

  lemma NothingSteady(earlier: seq<Occurrence>, interval: nat)
    ensures earlier + SteadyTrace([], interval) == earlier
  {
  }

  lemma ClippedDelay(cfg: Config, k: nat, t: Tick)
    ensures DelayOf(cfg, k, t) == MinReal(BackoffAt(cfg, k) as real, t.remaining)
  {
  }

  lemma OneMoreTick(cfg: Config, earlier: seq<Occurrence>, ticks: seq<Tick>, t: Tick, start: real)
    ensures earlier + SettleTrace(cfg, ticks + [t], start) ==
      earlier + SettleTrace(cfg, ticks, start) + TickTrace(cfg, |ticks|, t, start)
  {
    hide TickTrace;
    assert (ticks + [t])[..|ticks|] == ticks;
  }

  lemma OneMoreRound(earlier: seq<Occurrence>, ticks: seq<Tick>, t: Tick, interval: nat)
    ensures earlier + SteadyTrace(ticks + [t], interval) ==
      earlier + SteadyTrace(ticks, interval) + [Collects(t.first.outcome)] + [Sleeps(interval as real)]
  {
    assert (ticks + [t])[..|ticks|] == ticks;
  }

  lemma TickPasses(cfg: Config, k: nat, j: Judged, start: real, log: seq<Occurrence>)
    requires j.verdict.status == R.Pass
    ensures log + TickTrace(cfg, k, Tick(j, 1.0, j), start) == log + [Collects(j.outcome)]
  {
  }

  lemma TickGoesOn(cfg: Config, k: nat, t: Tick, at: real, start: real, log: seq<Occurrence>)
    requires t.first.verdict.status == R.Fail && 0.0 < t.remaining == start + cfg.timeoutSeconds as real - at
    ensures log + TickTrace(cfg, k, t, start) ==
      log + [Collects(t.first.outcome)] + [Reads(at)] + [Sleeps(DelayOf(cfg, k, t))]
  {
    hide DelayOf;
  }

  lemma TickTimesOut(cfg: Config, k: nat, t: Tick, at: real, start: real, log: seq<Occurrence>)
    requires t.first.verdict.status == R.Fail && 0.0 >= t.remaining == start + cfg.timeoutSeconds as real - at
    ensures log + TickTrace(cfg, k, t, start) ==
      log + [Collects(t.first.outcome)] + [Reads(at)] + [Collects(t.retry.outcome)]
  {
  }

  // ---- Pacing --------------------------------------------------------------------------

  /** The sum of the sleeps after the given ticks. */
  ghost function TotalDelay(cfg: Config, ticks: seq<Tick>): real
  {
    if ticks == [] then 0.0 else
    var k := |ticks| - 1;
    TotalDelay(cfg, ticks[..k]) + DelayOf(cfg, k, ticks[k])
  }

  /** The sleeps so far fit the timeout, and the clock has passed either the deadline or all the delays in full. */
  ghost predicate Paced(cfg: Config, now: real, ticks: seq<Tick>, start: real)
  {
    && start + TotalDelay(cfg, ticks) <= now
    && TotalDelay(cfg, ticks) <= Budget(cfg)
    && (now >= start + cfg.timeoutSeconds as real || now >= start + TotalBackoff(cfg, |ticks|) as real)
    && (ticks != [] ==> TotalBackoff(cfg, |ticks| - 1) < cfg.timeoutSeconds)
  }

  /** A sleep of the delay or of the time left, whichever is shorter, on real numbers. */
  lemma SleepIsPaced(start: real, timeout: real, sum: real, total: real, now: real, b: real, later: real)
    requires start + sum <= now < start + timeout && now >= start + total
    requires later >= now + MinReal(b, start + timeout - now)
    ensures var d := MinReal(b, start + timeout - now);
      start + sum + d <= later && sum + d <= timeout && (later >= start + timeout || later >= start + total + b)
  {
  }

  lemma OneMoreSleep(cfg: Config, now: real, ticks: seq<Tick>, start: real, t: Tick, later: real)
    requires Paced(cfg, now, ticks, start)
    requires 0.0 < t.remaining == start + cfg.timeoutSeconds as real - now
    requires later >= now + DelayOf(cfg, |ticks|, t)
    ensures Paced(cfg, later, ticks + [t], start)
  {
    var total, b := TotalBackoff(cfg, |ticks|), BackoffAt(cfg, |ticks|);
    SleepIsPaced(start, cfg.timeoutSeconds as real, TotalDelay(cfg, ticks), total as real, now, b as real, later);
    assert (ticks + [t])[..|ticks|] == ticks;
    assert TotalBackoff(cfg, |ticks| + 1) == total + b;
    assert (total + b) as real == total as real + b as real;
  }

  lemma NothingSlept(cfg: Config, now: real, start: real)
    requires start <= now
    ensures Paced(cfg, now, [], start)
  {
  }

  /** The time left before the deadline, in units begun. */
  ghost function TimeLeft(now: real, deadline: real, u: real): nat
    requires u > 0.0
  {
    if now >= deadline then 0 else QuotientIsPositive(deadline - now, u); ((deadline - now) / u).Floor + 1
  }

  lemma QuotientIsPositive(x: real, u: real)
    requires x > 0.0 && u > 0.0
    ensures x / u > 0.0
  {
  }

  lemma Cancels(a: real, b: real, u: real)
    requires u > 0.0 && a * u <= b * u
    ensures a <= b
  {
  }

  lemma QuotientDrops(x: real, y: real, u: real)
    requires u > 0.0 && y <= x - u
    ensures y / u <= x / u - 1.0
  {
    var a, b := y / u, x / u - 1.0;
    assert a * u == y && b * u == x - u;
    Cancels(a, b, u);
  }

  /** A unit later, or at the deadline, less time is left. */
  lemma LessTimeIsLeft(head: real, deadline: real, later: real, u: real)
    requires u > 0.0 && head < deadline && (later >= deadline || later >= head + u)
    ensures TimeLeft(later, deadline, u) < TimeLeft(head, deadline, u)
  {
    QuotientIsPositive(deadline - head, u);
    if later < deadline { QuotientDrops(deadline - head, deadline - later, u); }
  }

  lemma PacedLater(cfg: Config, now: real, ticks: seq<Tick>, start: real, later: real)
    requires Paced(cfg, now, ticks, start) && later >= now
    ensures Paced(cfg, later, ticks, start)
  {
  }

  function Budget(cfg: Config): real { if cfg.timeoutSeconds > 0 then cfg.timeoutSeconds as real else 0.0 }

  /** One attempt per requested sleep and one more: at most j + 2 + ceil(T / max) of them. */
  ghost predicate FewAttempts(cfg: Config, attempts: nat)
  {
    cfg.minBackoff <= cfg.maxBackoff && 0 <= cfg.timeoutSeconds && 0 < cfg.maxBackoff ==>
      forall j: nat | IsLastDoubling(cfg, j) :: attempts <= j + 2 + CeilDiv(cfg.timeoutSeconds, cfg.maxBackoff)
  }

  lemma NothingDoubles(cfg: Config, j: nat)
    ensures cfg.minBackoff == 0 && IsLastDoubling(cfg, j) ==> cfg.maxBackoff < 0
  {
    if cfg.minBackoff == 0 { assert cfg.minBackoff * Pow2(j + 1) == 0; }
  }

  lemma AttemptsAreFew(cfg: Config, now: real, ticks: seq<Tick>, start: real)
    requires cfg.minBackoff >= 0 && Paced(cfg, now, ticks, start)
    ensures FewAttempts(cfg, |ticks| + 1) && TotalDelay(cfg, ticks) <= Budget(cfg)
  {
    forall j: nat | IsLastDoubling(cfg, j) && cfg.minBackoff <= cfg.maxBackoff && 0 <= cfg.timeoutSeconds
      ensures |ticks| + 1 <= j + 2 + CeilDiv(cfg.timeoutSeconds, cfg.maxBackoff)
    {
      NothingDoubles(cfg, j);
      if ticks != [] {
        SleepsAreFew(cfg, j, |ticks| - 1, cfg.timeoutSeconds);
      }
    }
  }

  /** The ticks are a whole run of settling, and what it asked of the world is their trace; together its sleeps fit the
      timeout, and its attempts are few. */
  ghost predicate Settles(cfg: Config, ticks: seq<Tick>, attempts: nat, start: real, before: seq<Occurrence>,
                          after: seq<Occurrence>, writes: seq<Write>)
  {
    && attempts == |ticks| >= 1
    && Run(cfg, ticks[..attempts - 1]).control.Settling?
    && Run(cfg, ticks) == Progress(Watching(attempts), writes)
    && after == before + SettleTrace(cfg, ticks, start)
    && TotalDelay(cfg, ticks[..attempts - 1]) <= Budget(cfg)
    && FewAttempts(cfg, attempts)
  }

  lemma SettledAtLast(cfg: Config, ticks: seq<Tick>, t: Tick, start: real, before: seq<Occurrence>,
                      after: seq<Occurrence>, writes: seq<Write>)
    requires Run(cfg, ticks).control.Settling?
    requires Run(cfg, ticks + [t]) == Progress(Watching(|ticks| + 1), writes)
    requires after == before + SettleTrace(cfg, ticks + [t], start)
    requires TotalDelay(cfg, ticks) <= Budget(cfg) && FewAttempts(cfg, |ticks| + 1)
    ensures Settles(cfg, ticks + [t], |ticks| + 1, start, before, after, writes)
  {
    hide Run, SettleTrace, TotalDelay, FewAttempts;
    assert (ticks + [t])[..|ticks|] == ticks;
  }

  lemma HasSettled(cfg: Config, ticks: seq<Tick>, attempts: nat, start: real, before: seq<Occurrence>,
                   after: seq<Occurrence>, writes: seq<Write>)
    requires Settles(cfg, ticks, attempts, start, before, after, writes)
    ensures attempts == |ticks| >= 1 && Run(cfg, ticks[..attempts - 1]).control.Settling?
    ensures Run(cfg, ticks) == Progress(Watching(attempts), writes)
    ensures after == before + SettleTrace(cfg, ticks, start)
    ensures TotalDelay(cfg, ticks[..attempts - 1]) <= Budget(cfg) && FewAttempts(cfg, attempts)
  {
  }

  lemma {:induction false} BackoffIsAtLeast(cfg: Config, k: nat, least: nat)
    requires cfg.minBackoff >= least && cfg.maxBackoff >= least
    ensures BackoffAt(cfg, k) >= least
  {
    if k > 0 { BackoffIsAtLeast(cfg, k - 1, least); }
  }

  /** What makes settling end: delays of at least a second, or collections that take time. */
  predicate Advances(cfg: Config, lag: Duration)
  {
    cfg.minBackoff >= 0 && cfg.maxBackoff >= 0 && (lag > 0.0 || (cfg.minBackoff >= 1 && cfg.maxBackoff >= 1))
  }

  lemma BoundsAreNatural(cfg: Config, lag: Duration)
    requires Advances(cfg, lag)
    ensures cfg.minBackoff >= 0 && cfg.maxBackoff >= 0
  {
  }

  /** By this the clock advances at least with every failing attempt that does not reach the deadline. */
  ghost function Unit(cfg: Config, lag: Duration): (u: real)
    requires Advances(cfg, lag)
    ensures u > 0.0
  {
    if lag > 0.0 then lag else 1.0
  }

  lemma UnitIsSlept(cfg: Config, lag: Duration, k: nat, head: real, t: real, deadline: real, d: real)
    requires Advances(cfg, lag) && head + lag <= t < deadline && d == MinReal(BackoffAt(cfg, k) as real, deadline - t)
    ensures d >= 0.0 && (t + d >= deadline || t + d >= head + Unit(cfg, lag))
  {
    BackoffIsAtLeast(cfg, k, 0);
    if lag == 0.0 { BackoffIsAtLeast(cfg, k, 1); }
  }

  // ---- The trace, occurrence by occurrence ---------------------------------------------

  /** The shorter of the k-th delay, doubled k times from the minimum up to the maximum, and the time left. */
  ghost predicate IsClipped(cfg: Config, k: nat, left: real, slept: real)
  {
    var delay := BackoffAt(cfg, k) as real;
    (slept == delay || slept == left) && slept <= delay && slept <= left
  }

  /** The k-th attempt that neither passed nor was the last: a collection, a reading before the deadline, a sleep. */
  ghost predicate AttemptTells(tr: seq<Occurrence>, cfg: Config, k: nat, start: real, w: Write)
  {
    && 3 * k + 3 < |tr|
    && tr[3 * k + 1] == Collects(w.outcome)
    && tr[3 * k + 2].Reads? && tr[3 * k + 2].at < start + cfg.timeoutSeconds as real
    && tr[3 * k + 3].Sleeps?
    && IsClipped(cfg, k, start + cfg.timeoutSeconds as real - tr[3 * k + 2].at, tr[3 * k + 3].seconds)
  }

  lemma {:induction false} SettlingTrace(cfg: Config, ticks: seq<Tick>, start: real)
    requires Run(cfg, ticks).control.Settling?
    ensures var tr, ws := SettleTrace(cfg, ticks, start), Run(cfg, ticks).writes;
      && Run(cfg, ticks).control.attempts == |ws| == |ticks| && |tr| == 3 * |ticks| + 1 && tr[0] == Reads(start)
      && forall k | 0 <= k < |ticks| :: AttemptTells(tr, cfg, k, start, ws[k])
  {
    hide BackoffAt;
    if ticks != [] {
      var n := |ticks| - 1;
      var front, t := ticks[..n], ticks[n];
      SettlingTrace(cfg, front, start);
      var tr := SettleTrace(cfg, ticks, start);
      assert tr == SettleTrace(cfg, front, start) + TickTrace(cfg, n, t, start);
      forall k | 0 <= k <= n ensures AttemptTells(tr, cfg, k, start, Run(cfg, ticks).writes[k]) {
        if k < n { assert AttemptTells(SettleTrace(cfg, front, start), cfg, k, start, Run(cfg, front).writes[k]); }
      }
    }
  }

  /** What settling asked of the world: first the clock, once for each attempt that failed in time a collection, the
      clock and a sleep; then a last collection, which passes, or fails and is followed by a reading at or after the
      deadline and the collection of the time-out. */
  lemma TraceInWords(cfg: Config, ticks: seq<Tick>, attempts: nat, start: real, before: seq<Occurrence>,
                     after: seq<Occurrence>, writes: seq<Write>)
    requires Settles(cfg, ticks, attempts, start, before, after, writes)
    ensures before <= after && attempts >= 1 && attempts <= |writes|
    ensures var tr, n := after[|before|..], attempts - 1;
      && |tr| >= 3 * n + 2 && tr[0] == Reads(start)
      && (forall k | 0 <= k < n :: AttemptTells(tr, cfg, k, start, writes[k]) && !Passes(writes[k]))
      && tr[3 * n + 1] == Collects(writes[n].outcome)
      && if Passes(writes[n]) then |tr| == 3 * n + 2 && |writes| == attempts
         else |tr| == 3 * n + 4 && |writes| == attempts + 1
              && tr[3 * n + 2].Reads? && tr[3 * n + 2].at >= start + cfg.timeoutSeconds as real
              && tr[3 * n + 3] == Collects(writes[attempts].outcome)
  {
    hide BackoffAt, FewAttempts, TotalDelay;
    var n := attempts - 1;
    var front, t := ticks[..n], ticks[n];
    SettlingTrace(cfg, front, start);
    EveryRunIsWellShaped(cfg, front);
    var head, ws := SettleTrace(cfg, front, start), Run(cfg, front).writes;
    var tr := after[|before|..];
    assert tr == head + TickTrace(cfg, n, t, start);
    assert writes == ws + Turn(cfg, Run(cfg, front).control, t).1;
    forall k | 0 <= k < n ensures AttemptTells(tr, cfg, k, start, writes[k]) && !Passes(writes[k]) {
      assert AttemptTells(head, cfg, k, start, ws[k]) && writes[k] == ws[k];
      assert IsEvent(ws[k], Settle, k + 1) && !Passes(ws[k]);
    }
  }

  // ---- The orchestrator ----------------------------------------------------------------

  class RegistrationOrchestrator {
    const cfg: Config
    var runManifest: Object
    var disk: Bundle
    ghost const before: Bundle
    ghost var writes: seq<Write>

    ghost predicate Valid()
      reads this
    {
      && disk == Replay(cfg, before, writes)
      && runManifest == ManifestAfter(cfg, writes)
      && AllGenuine(cfg, writes)
    }

    constructor (cfg: Config, disk: Bundle)
      ensures Valid() && writes == [] && this.cfg == cfg && before == disk
    {
      this.cfg, this.before, this.writes := cfg, disk, [];
      this.runManifest := ManifestJson(cfg);
      this.disk := disk.(manifest := File(ManifestJson(cfg)), events := Some([]));
    }

    /** Judges the one snapshot it collects. */
    method CollectVerdict(world: World, timedOut: bool) returns (j: Judged)
      modifies world
      ensures HonestVerdict(cfg, j, timedOut)
      ensures world.trace == old(world.trace) + [Collects(j.outcome)]
      ensures world.now >= old(world.now) + world.lag
    {
      var outcome := world.CollectSnapshot();
      var snapshot, errors := EmptySnapshot(cfg), [];
      match outcome {
        case Collected(sources) => snapshot := R.CollectSnapshot(cfg.expectedAgents, sources);
        case Threw(message) => errors := [message];
      }
      j := Judged(outcome, R.Evaluate(snapshot, timedOut, errors));
    }

    method WriteArtifacts(j: Judged, attempt: int, phase: Phase)
      requires Valid() && Genuine(cfg, Record(j, attempt, phase))
      modifies this
      ensures Valid()
      ensures writes == old(writes) + [Record(j, attempt, phase)]
    {
      var verdict := j.verdict;
      runManifest := runManifest[LastVerdictAt := Plain(verdict.snapshot.capturedAt)];
      runManifest := runManifest[LastStatus := StatusWord(verdict.status)];
      runManifest := runManifest[AttemptCount := Int(attempt)];
      ManifestAfterIsStable(cfg, writes, verdict, attempt);
      disk := disk.(manifest := File(runManifest));
      disk := disk.(verdict := File(VerdictJson(cfg, verdict)));
      disk := disk.(summary := File(SummaryJson(cfg, verdict)));
      disk := disk.(events := Some(LogOf(disk) + [Good(Obj(EventJson(cfg, verdict, attempt, phase)))]));
      ghost var earlier := writes;
      writes := writes + [Record(j, attempt, phase)];
      assert writes[..|writes| - 1] == earlier;
    }

    /** One attempt: a collection, its verdict and its artifacts. */
    method Attempt(world: World, attempt: int, phase: Phase) returns (j: Judged)
      requires Valid() && attempt > 0
      modifies this, world
      ensures Valid() && writes == old(writes) + [Record(j, attempt, phase)]
      ensures HonestVerdict(cfg, j, phase == Timeout)
      ensures world.trace == old(world.trace) + [Collects(j.outcome)]
      ensures world.now >= old(world.now) + world.lag
    {
      j := CollectVerdict(world, phase == Timeout);
      WriteArtifacts(j, attempt, phase);
    }

    /** Polls until a verdict passes or the timeout is over. What it asks of the world is exactly the trace of its
        ticks: the time remaining is the deadline less the reading made after the attempt, every sleep is the doubling
        delay clipped to it, and the timeout event follows a reading past the deadline. Together the sleeps never exceed
        the timeout. */
    method SettleRegistration(world: World)
      returns (ghost ticks: seq<Tick>, ghost attempts: nat, ghost start: real)
      requires Valid() && writes == []
      requires Advances(cfg, world.lag)
      modifies this, world
      ensures Valid()
      ensures Settles(cfg, ticks, attempts, start, old(world.trace), world.trace, writes)
    {
      hide *;
      SettlingStarts(cfg);
      BoundsAreNatural(cfg, world.lag);
      ghost var earlier := world.trace;
      var begun := world.Monotonic();
      start := begun;
      NothingTraced(cfg, start);
      NothingSlept(cfg, world.now, start);
      var deadline := begun + cfg.timeoutSeconds as real;
      var backoff, attempt := cfg.minBackoff, 0;
      ticks := [];
      while true
        invariant Valid() && attempt == |ticks|
        invariant Run(cfg, ticks) == Progress(Settling(attempt, backoff), writes)
        invariant world.trace == earlier + SettleTrace(cfg, ticks, start)
        invariant Paced(cfg, world.now, ticks, start) && backoff == BackoffAt(cfg, attempt)
        decreases TimeLeft(world.now, deadline, Unit(cfg, world.lag))
      {
        ghost var head, log, done := world.now, world.trace, ticks;
        attempt := attempt + 1;
        var j := Attempt(world, attempt, Settle);
        PacedLater(cfg, head, done, start, world.now);
        attempts := attempt;
        if j.verdict.status == R.Pass {
          SettlingPasses(cfg, done, j);
          TickPasses(cfg, |done|, j, start, log);
          OneMoreTick(cfg, earlier, done, Tick(j, 1.0, j), start);
          AttemptsAreFew(cfg, world.now, done, start);
          SettledAtLast(cfg, done, Tick(j, 1.0, j), start, earlier, world.trace, writes);
          ticks := done + [Tick(j, 1.0, j)];
          return;
        }
        var t := world.Monotonic();
        var remaining := deadline - t;
        PacedLater(cfg, head, done, start, t);
        if remaining <= 0.0 {
          var retry := Attempt(world, attempt, Timeout);
          SettlingTimesOut(cfg, done, j, remaining, retry);
          TickTimesOut(cfg, |done|, Tick(j, remaining, retry), t, start, log);
          OneMoreTick(cfg, earlier, done, Tick(j, remaining, retry), start);
          AttemptsAreFew(cfg, t, done, start);
          SettledAtLast(cfg, done, Tick(j, remaining, retry), start, earlier, world.trace, writes);
          ticks := done + [Tick(j, remaining, retry)];
          return;
        }
        SettlingGoesOn(cfg, done, j, remaining);
        var d := MinReal(backoff as real, remaining);
        ClippedDelay(cfg, |done|, Tick(j, remaining, j));
        UnitIsSlept(cfg, world.lag, attempt - 1, head, t, deadline, d);
        world.Sleep(d);
        TickGoesOn(cfg, |done|, Tick(j, remaining, j), t, start, log);
        OneMoreTick(cfg, earlier, done, Tick(j, remaining, j), start);
        OneMoreSleep(cfg, t, done, start, Tick(j, remaining, j), world.now);
        ticks := done + [Tick(j, remaining, j)];
        NextBackoff(cfg, attempt - 1);
        backoff := Min(backoff * 2, cfg.maxBackoff);
        LessTimeIsLeft(head, deadline, world.now, Unit(cfg, world.lag));
      }
    }

    /** `run_forever`, observed for `rounds` steady-state rounds, each a collection and the interval. */
    method RunForever(world: World, interval: nat, rounds: nat)
      returns (ghost ticks: seq<Tick>, ghost attempts: nat, ghost start: real)
      requires Valid() && writes == []
      requires Advances(cfg, world.lag)
      modifies this, world
      ensures Valid()
      ensures attempts >= 1 && |ticks| == attempts + rounds
      ensures Run(cfg, ticks[..attempts - 1]).control.Settling?
      ensures Run(cfg, ticks) == Progress(Watching(attempts + rounds), writes)
      ensures world.trace == old(world.trace) + SettleTrace(cfg, ticks[..attempts], start) +
        SteadyTrace(ticks[attempts..], interval)
      ensures TotalDelay(cfg, ticks[..attempts - 1]) <= Budget(cfg)
      ensures FewAttempts(cfg, attempts)
    {
      hide *;
      ghost var settled, steady;
      settled, attempts, start := SettleRegistration(world);
      HasSettled(cfg, settled, attempts, start, old(world.trace), world.trace, writes);
      LastAttemptOfRun(cfg, settled);
      var attempt := LastAttempt();
      steady := Watch(world, interval, rounds, attempt, settled);
      ticks := settled + steady;
      assert ticks[..attempts] == settled && ticks[attempts..] == steady;
      assert ticks[..attempts - 1] == settled[..attempts - 1];
    }

    /** The loop of `run_forever`, from the last attempt on. */
    method Watch(world: World, interval: nat, rounds: nat, last: int, ghost settled: seq<Tick>)
      returns (ghost steady: seq<Tick>)
      requires Valid() && last >= 0 && Run(cfg, settled) == Progress(Watching(last), writes)
      modifies this, world
      ensures Valid() && |steady| == rounds
      ensures Run(cfg, settled + steady) == Progress(Watching(last + rounds), writes)
      ensures world.trace == old(world.trace) + SteadyTrace(steady, interval)
    {
      hide *;
      ghost var log := world.trace;
      var attempt := last;
      steady := [];
      assert settled + steady == settled;
      NothingSteady(log, interval);
      for i := 0 to rounds
        invariant Valid() && attempt == last + i && |steady| == i
        invariant Run(cfg, settled + steady) == Progress(Watching(attempt), writes)
        invariant world.trace == log + SteadyTrace(steady, interval)
      {
        attempt := attempt + 1;
        var j := Attempt(world, attempt, SteadyState);
        WatchingGoesOn(cfg, settled + steady, j);
        OneMoreRound(log, steady, Tick(j, 1.0, j), interval);
        assert settled + (steady + [Tick(j, 1.0, j)]) == settled + steady + [Tick(j, 1.0, j)];
        steady := steady + [Tick(j, 1.0, j)];
        world.Sleep(interval as real);
      }
    }

    /** `run_manifest.get("attemptCount", 0)`. */
    function LastAttempt(): (n: int)
      requires Valid()
      reads this
      ensures n == if writes == [] then 0 else writes[|writes| - 1].attempt
    {
      var v := Get(runManifest, AttemptCount);
      if v.Int? then v.number else 0
    }
  }

  /** What the validator says of the directory an orchestrator has written: it objects exactly to a pass that counts a
      stranger among the connected agents. */
  lemma ValidatorAgreesWithTheOrchestrator(o: RegistrationOrchestrator)
    requires o.Valid() && o.writes != [] && 0 <= o.cfg.minBackoff <= o.cfg.maxBackoff
    requires o.before.coreReport.None? && o.before.operationalReport.None?
    ensures var last := o.writes[|o.writes| - 1];
      Consistent(o.disk) <==> !Passes(last) || R.ConnectedAreTheLdapIds(SnapshotOf(o.cfg, last.outcome))
  {
    hide R.Evaluate;
    ValidatorAgreesOnEveryRun(o.cfg, o.before, o.writes);
  }

  ghost function ManifestAfter(cfg: Config, writes: seq<Write>): Object
  {
    if writes == [] then ManifestJson(cfg)
    else UpdatedManifest(ManifestJson(cfg), writes[|writes| - 1].verdict, writes[|writes| - 1].attempt)
  }

  /** Rewriting the three fields of an updated manifest gives what updating the first one gives. */
  lemma ManifestAfterIsStable(cfg: Config, writes: seq<Write>, e: R.Evaluation, attempt: int)
    ensures UpdatedManifest(ManifestAfter(cfg, writes), e, attempt) == UpdatedManifest(ManifestJson(cfg), e, attempt)
  {
  }

  lemma LastAttemptOfRun(cfg: Config, ticks: seq<Tick>)
    requires Run(cfg, ticks).control.Watching?
    ensures Run(cfg, ticks).writes != []
    ensures Run(cfg, ticks).writes[|Run(cfg, ticks).writes| - 1].attempt == Run(cfg, ticks).control.attempts
  {
    EveryRunIsWellShaped(cfg, ticks);
    var p := Run(cfg, ticks);
    var n :| SettledLog(p.writes, n, p.control.attempts);
  }
}
