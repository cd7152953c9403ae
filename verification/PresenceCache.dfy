/** The presence provider's cache under concurrent callers: every read and write of the two volatile fields, every clock
    reading, every fetch and every lock operation is one step, and a schedule interleaves the steps of any threads. */
module PresenceCache {
  import opened Text

  const CACHE_TTL := 3000
  const STALE_CACHE_TTL := 30000

  type Thread = nat

  /** Where a caller stands inside `getOnlineRecipients`, with its locals. */
  datatype Pc =
    | Idle
    | Timed(now: int)                            // has read the clock
    | Fresh(now: int)                            // found the cache fresh
    | Waiting                                    // waits for the lock
    | Locked                                     // entered the synchronized block
    | LockedTimed(now: int)                      // has read the clock again
    | LockedFresh(now: int)                      // found the cache fresh after all
    | Fetching(now: int)
    | Fetched(now: int, users: set<string>)      // about to store the fetched set
    | Stored(now: int, users: set<string>)       // about to store the time
    | Failed(now: int)                           // the fetch threw
    | Tolerable(now: int)                        // the cache is at most the stale limit old
    | Usable(now: int)                           // and not empty
    | Clearing(now: int)                         // about to empty the cache
    | Emptied(now: int)                          // about to store the time
    | Stamped(now: int)                          // about to return the emptied cache
  {
    /** Inside the synchronized block. */
    predicate Critical()
    {
      !Idle? && !Timed? && !Fresh? && !Waiting?
    }

    /** Between the two stores of a refresh. */
    predicate HalfStored() { Stored? || Emptied? }

    /** Has decided to refresh, and not stored the time yet. */
    predicate Refreshing()
    {
      Fetching? || Fetched? || Stored? || Failed? || Tolerable? || Usable? || Clearing? || Emptied?
    }
  }

  /** A successful fetch, stamped with the clock reading of the call that made it. */
  datatype Fetch = Fetch(at: int, users: set<string>)

  datatype Return = Return(now: int, fetchFailed: bool, users: set<string>)

  /** `storedAt`, `fetches` and `answers` record the history: the stamp of the last store to the set, the successful
      fetches, and the answers given. */
  datatype State = State(
    cachedRecipients: set<string>, cachedAt: int, lock: Option<Thread>, pcs: map<Thread, Pc>,
    storedAt: int, fetches: seq<Fetch>, answers: seq<Return>)
  {
    function Pc(t: Thread): Pc { if t in pcs then pcs[t] else Idle }

    function Goto(t: Thread, pc: Pc): State { this.(pcs := pcs[t := pc]) }

    /** Returns from inside the synchronized block. */
    function Leave(t: Thread, r: Return): State
    {
      this.(pcs := pcs[t := Idle], lock := None, answers := answers + [r])
    }
  }

  datatype Reply = Users(users: set<string>) | Error

  /** One scheduled step: who moves, what the clock would read, and how a fetch would end. */
  datatype Move = Move(thread: Thread, clock: int, reply: Reply)

  const INITIAL := State({}, 0, None, map[], 0, [], [])

  function Step(s: State, m: Move): State
  {
    var t := m.thread;
    match s.Pc(t)
    case Idle => s.Goto(t, Timed(m.clock))
    case Timed(now) => s.Goto(t, if now - s.cachedAt <= CACHE_TTL then Fresh(now) else Waiting)
    case Fresh(now) => s.Goto(t, Idle).(answers := s.answers + [Return(now, false, s.cachedRecipients)])
    case Waiting => if s.lock.None? then s.Goto(t, Locked).(lock := Some(t)) else s
    case Locked => s.Goto(t, LockedTimed(m.clock))
    case LockedTimed(now) => s.Goto(t, if now - s.cachedAt <= CACHE_TTL then LockedFresh(now) else Fetching(now))
    case LockedFresh(now) => s.Leave(t, Return(now, false, s.cachedRecipients))
    case Fetching(now) =>
      (match m.reply
       case Users(users) => s.Goto(t, Fetched(now, users)).(fetches := s.fetches + [Fetch(now, users)])
       case Error => s.Goto(t, Failed(now)))
    case Fetched(now, users) => s.Goto(t, Stored(now, users)).(cachedRecipients := users, storedAt := now)
    case Stored(now, users) => s.(cachedAt := now).Leave(t, Return(now, false, users))
    case Failed(now) => s.Goto(t, if now - s.cachedAt <= STALE_CACHE_TTL then Tolerable(now) else Clearing(now))
    case Tolerable(now) => s.Goto(t, if s.cachedRecipients != {} then Usable(now) else Clearing(now))
    case Usable(now) => s.Leave(t, Return(now, true, s.cachedRecipients))
    case Clearing(now) => s.Goto(t, Emptied(now)).(cachedRecipients := {}, storedAt := now)
    case Emptied(now) => s.Goto(t, Stamped(now)).(cachedAt := now)
    case Stamped(now) => s.Leave(t, Return(now, true, s.cachedRecipients))
  }

  function Run(schedule: seq<Move>): State
  {
    if schedule == [] then INITIAL else Step(Run(schedule[..|schedule| - 1]), schedule[|schedule| - 1])
  }

  // ---- The invariant -------------------------------------------------------------------

  ghost predicate WasFetched(s: State, users: set<string>, notBefore: int)
  {
    exists i :: 0 <= i < |s.fetches| && s.fetches[i].users == users && notBefore <= s.fetches[i].at
  }

  ghost predicate ThreadOk(s: State, t: Thread)
  {
    var pc := s.Pc(t);
    && (pc.Critical() ==> s.lock == Some(t))
    && (pc.Refreshing() ==> pc.now - s.cachedAt > CACHE_TTL)
    && (pc.HalfStored() ==> s.storedAt == pc.now)
    && (pc.Critical() && !pc.HalfStored() ==> s.storedAt == s.cachedAt)
    && (pc.Fresh? || pc.LockedFresh? ==> pc.now - s.storedAt <= CACHE_TTL)
    && (pc.Fetched? || pc.Stored? ==> WasFetched(s, pc.users, pc.now))
    && (pc.Tolerable? || pc.Usable? ==> pc.now - s.storedAt <= STALE_CACHE_TTL)
    && (pc.Clearing? ==> pc.now - s.cachedAt > STALE_CACHE_TTL || s.cachedRecipients == {})
    && (pc.Emptied? || pc.Stamped? ==> s.cachedRecipients == {})
  }

  /** A nonempty answer is a set some call fetched, stamped at most 3 s before the answering call's last clock reading,
      or at most 30 s before it if that call's own fetch failed. */
  ghost predicate Justified(s: State, r: Return)
  {
    r.users != {} ==> WasFetched(s, r.users, r.now - if r.fetchFailed then 30000 else 3000)
  }

  ghost predicate Inv(s: State)
  {
    && s.cachedAt <= s.storedAt
    && (s.lock.None? ==> s.storedAt == s.cachedAt)
    && (s.cachedRecipients != {} ==> WasFetched(s, s.cachedRecipients, s.storedAt))
    && (forall t :: ThreadOk(s, t))
    && (forall i | 0 <= i < |s.answers| :: Justified(s, s.answers[i]))
  }

  lemma MoreFetches(s: State, f: Fetch, users: set<string>, notBefore: int)
    requires WasFetched(s, users, notBefore)
    ensures WasFetched(s.(fetches := s.fetches + [f]), users, notBefore)
  {
    var i :| 0 <= i < |s.fetches| && s.fetches[i].users == users && notBefore <= s.fetches[i].at;
    assert (s.fetches + [f])[i] == s.fetches[i];
  }

  lemma StepKeepsFetched(s: State, m: Move, users: set<string>, notBefore: int)
    requires WasFetched(s, users, notBefore)
    ensures WasFetched(Step(s, m), users, notBefore)
  {
    var pc := s.Pc(m.thread);
    if pc.Fetching? && m.reply.Users? {
      MoreFetches(s, Fetch(pc.now, m.reply.users), users, notBefore);
    }
  }

  lemma StepKeepsShared(s: State, m: Move)
    requires Inv(s)
    ensures var s' := Step(s, m);
      && s.cachedAt <= s'.cachedAt <= s'.storedAt && s.storedAt <= s'.storedAt
      && (s'.lock.None? ==> s'.storedAt == s'.cachedAt)
      && (s'.cachedRecipients != {} ==> WasFetched(s', s'.cachedRecipients, s'.storedAt))
  {
    assert ThreadOk(s, m.thread);
    if s.cachedRecipients != {} {
      StepKeepsFetched(s, m, s.cachedRecipients, s.storedAt);
    }
    var pc := s.Pc(m.thread);
    if pc.Fetched? {
      StepKeepsFetched(s, m, pc.users, pc.now);
    }
  }

  lemma StepKeepsMover(s: State, m: Move)
    requires Inv(s)
    ensures ThreadOk(Step(s, m), m.thread)
  {
    var pc, s' := s.Pc(m.thread), Step(s, m);
    assert ThreadOk(s, m.thread);
    if pc.Fetching? && m.reply.Users? {
      assert s'.fetches[|s.fetches|] == Fetch(pc.now, m.reply.users);
    }
    if pc.Fetched? {
      StepKeepsFetched(s, m, pc.users, pc.now);
    }
  }

  lemma StepKeepsOthers(s: State, m: Move, t: Thread)
    requires Inv(s) && t != m.thread
    ensures ThreadOk(Step(s, m), t)
  {
    assert ThreadOk(s, t) && ThreadOk(s, m.thread);
    StepKeepsShared(s, m);
    var pc := s.Pc(t);
    assert Step(s, m).Pc(t) == pc;
    if pc.Fetched? || pc.Stored? {
      StepKeepsFetched(s, m, pc.users, pc.now);
    }
  }

  lemma StepKeepsReturns(s: State, m: Move)
    requires Inv(s)
    ensures forall i | 0 <= i < |Step(s, m).answers| :: Justified(Step(s, m), Step(s, m).answers[i])
  {
    var s', pc := Step(s, m), s.Pc(m.thread);
    assert ThreadOk(s, m.thread);
    forall i | 0 <= i < |s'.answers| ensures Justified(s', s'.answers[i]) {
      var r := s'.answers[i];
      if i < |s.answers| {
        assert Justified(s, s.answers[i]);
        if r.users != {} {
          StepKeepsFetched(s, m, r.users, r.now - if r.fetchFailed then STALE_CACHE_TTL else CACHE_TTL);
        }
      } else if r.users != {} {
        assert s'.fetches == s.fetches;
        if pc.Stored? {
          assert WasFetched(s, pc.users, pc.now);
        } else {
          assert WasFetched(s, s.cachedRecipients, s.storedAt);
        }
      }
    }
  }

  lemma StepKeepsInv(s: State, m: Move)
    requires Inv(s)
    ensures Inv(Step(s, m))
  {
    StepKeepsShared(s, m);
    StepKeepsReturns(s, m);
    forall t ensures ThreadOk(Step(s, m), t) {
      if t == m.thread { StepKeepsMover(s, m); } else { StepKeepsOthers(s, m, t); }
    }
  }

  // ---- Every run -----------------------------------------------------------------------

  lemma {:induction false} EveryStateIsSafe(schedule: seq<Move>)
    ensures Inv(Run(schedule))
  {
    if schedule != [] {
      EveryStateIsSafe(schedule[..|schedule| - 1]);
      StepKeepsInv(Run(schedule[..|schedule| - 1]), schedule[|schedule| - 1]);
    }
  }

  /** Under every interleaving, whatever the clock reads and however the fetches end, every answer is justified. */
  lemma EveryAnswerIsJustified(schedule: seq<Move>)
    ensures forall r | r in Run(schedule).answers :: Justified(Run(schedule), r)
  {
    EveryStateIsSafe(schedule);
  }

  /** `cachedAt` never decreases, and a refresh moves it by more than the freshness limit. */
  lemma {:induction false} CachedAtNeverDecreases(earlier: seq<Move>, later: seq<Move>)
    requires earlier <= later
    ensures Run(earlier).cachedAt == Run(later).cachedAt || Run(earlier).cachedAt + 3000 < Run(later).cachedAt
  {
    if |earlier| < |later| {
      var front, m := later[..|later| - 1], later[|later| - 1];
      CachedAtNeverDecreases(earlier, front);
      EveryStateIsSafe(front);
      assert ThreadOk(Run(front), m.thread);
    } else {
      assert earlier == later;
    }
  }

  /** A step that empties a nonempty cache either stores a successful fetch of nobody or follows a failed fetch that
      found the cache more than 30 s old. */
  lemma FailureKeepsAnUsableCache(schedule: seq<Move>, m: Move)
    requires Run(schedule).cachedRecipients != {} && Run(schedule + [m]).cachedRecipients == {}
    ensures var s := Run(schedule); var pc := s.Pc(m.thread);
      || (pc.Fetched? && pc.users == {})
      || (pc.Clearing? && pc.now - s.cachedAt > 30000)
  {
    assert (schedule + [m])[..|schedule|] == schedule;
    EveryStateIsSafe(schedule);
    assert ThreadOk(Run(schedule), m.thread);
  }

  /** At most one caller at a time is past the lock. */
  lemma RefreshIsExclusive(schedule: seq<Move>, t: Thread, u: Thread)
    requires Run(schedule).Pc(t).Critical() && Run(schedule).Pc(u).Critical()
    ensures t == u
  {
    EveryStateIsSafe(schedule);
    assert ThreadOk(Run(schedule), t) && ThreadOk(Run(schedule), u);
  }

  // ---- What is answered ----------------------------------------------------------------

  /** Whoever has fetched and not answered yet has made the last fetch, and once it has stored the set, that is the
      cached one; so is the empty set once it has emptied the cache. */
  ghost predicate HolderOk(s: State, t: Thread)
  {
    var pc := s.Pc(t);
    && (pc.Fetched? || pc.Stored? ==> s.fetches != [] && s.fetches[|s.fetches| - 1] == Fetch(pc.now, pc.users))
    && (pc.Stored? ==> s.cachedRecipients == pc.users)
    && (pc.Usable? ==> s.cachedRecipients != {} && pc.now - s.cachedAt <= 30000)
    && (pc.Tolerable? ==> pc.now - s.cachedAt <= 30000)
    && (pc.Clearing? ==> pc.now - s.cachedAt > 30000 || s.cachedRecipients == {})
    && (pc.Emptied? || pc.Stamped? ==> s.cachedRecipients == {})
    && (pc.Refreshing() ==> pc.now - s.cachedAt > 3000)
    && (pc.Fresh? || pc.LockedFresh? ==> pc.now - s.cachedAt <= 3000)
    && (pc.Critical() ==> s.lock == Some(t))
  }

  lemma StepKeepsHolder(s: State, m: Move, t: Thread)
    requires HolderOk(s, t) && HolderOk(s, m.thread)
    ensures HolderOk(Step(s, m), t)
  {
    if t == m.thread { MoverStaysOk(s, m); } else { OtherStaysOk(s, m, t); }
  }

  lemma MoverStaysOk(s: State, m: Move)
    requires HolderOk(s, m.thread)
    ensures HolderOk(Step(s, m), m.thread)
  {
  }

  lemma OtherStaysOk(s: State, m: Move, t: Thread)
    requires HolderOk(s, t) && HolderOk(s, m.thread) && t != m.thread
    ensures HolderOk(Step(s, m), t)
  {
    assert Step(s, m).Pc(t) == s.Pc(t);
  }

  lemma {:induction false} HoldersAreOk(schedule: seq<Move>, t: Thread)
    ensures HolderOk(Run(schedule), t)
  {
    hide HolderOk, Step;
    if schedule == [] {
      assert HolderOk(Run([]), t) by { NobodyHolds(t); }
    } else {
      HoldersAreOk(schedule[..|schedule| - 1], t);
      HoldersAreOk(schedule[..|schedule| - 1], schedule[|schedule| - 1].thread);
      StepKeepsHolder(Run(schedule[..|schedule| - 1]), schedule[|schedule| - 1], t);
    }
  }

  lemma NobodyHolds(t: Thread)
    ensures HolderOk(INITIAL, t)
  {
  }

  /** What one move of any schedule does to the answers, the cache and the fetches, in terms of before and after. */
  ghost predicate MoveTells(s: State, s': State, m: Move)
  {
    && (s'.answers == s.answers || AnswersTell(s, s', m.thread))
    && (s'.fetches == s.fetches ||
          exists at: int, u: set<string> :: s'.fetches == s.fetches + [Fetch(at, u)] && m.reply == Users(u))
    && (s'.cachedRecipients == s.cachedRecipients || s'.cachedRecipients == {} ||
        (s.fetches != [] && s'.cachedRecipients == s.fetches[|s.fetches| - 1].users))
  }

  /** One more answer: the cached set of that moment, which is at most 3 s old, or the one fetched last, whose time is
      stored with it; after a failed fetch, it is at most 30 s old or empty. */
  ghost predicate AnswersTell(s: State, s': State, t: Thread)
  {
    && |s'.answers| == |s.answers| + 1 && s.answers <= s'.answers
    && s'.cachedRecipients == s.cachedRecipients && s'.Pc(t) == Idle
    && var r := s'.answers[|s.answers|];
    && r.users == s.cachedRecipients
    && (r.fetchFailed ==> s'.cachedAt == s.cachedAt && (r.users != {} ==> r.now - s.cachedAt <= 30000))
    && (r.fetchFailed || (s'.cachedAt == s.cachedAt && r.now - s.cachedAt <= 3000) ||
        (s'.cachedAt == r.now && s.fetches != [] && s.fetches[|s.fetches| - 1] == Fetch(r.now, r.users)))
  }

  lemma EveryMoveTells(schedule: seq<Move>, m: Move)
    ensures MoveTells(Run(schedule), Run(schedule + [m]), m)
  {
    assert (schedule + [m])[..|schedule|] == schedule;
    HoldersAreOk(schedule, m.thread);
    StepTells(Run(schedule), m);
  }

  lemma StepTells(s: State, m: Move)
    requires HolderOk(s, m.thread)
    ensures MoveTells(s, Step(s, m), m)
  {
    var pc := s.Pc(m.thread);
    if pc.Fetching? && m.reply.Users? {
      assert Step(s, m).fetches == s.fetches + [Fetch(pc.now, m.reply.users)];
    }
  }

  // ---- One caller alone ----------------------------------------------------------------

  function Steps(s: State, moves: seq<Move>): State
  {
    if moves == [] then s else Step(Steps(s, moves[..|moves| - 1]), moves[|moves| - 1])
  }

  /** Where thread 0 stands, alone, the two fields, and the answers given. */
  datatype Alone = Alone(pc: Pc, users: set<string>, at: int, answers: seq<set<string>>)

  ghost predicate IsAlone(s: State, a: Alone)
  {
    && s.cachedRecipients == a.users && s.cachedAt == a.at && s.Pc(0) == a.pc
    && s.lock == (if a.pc.Critical() then Some(0) else None)
    && |s.answers| == |a.answers| && forall i | 0 <= i < |a.answers| :: s.answers[i].users == a.answers[i]
  }

  /** What the world tells one call: the clock, twice, and how a fetch ends. */
  datatype Call = Call(clock: int, clockAgain: int, reply: Reply)

  /** The moves of the call by thread 0: the first two may read the clock outside the lock, the others inside. */
  ghost function MoveOf(w: Call, i: nat): Move { Move(0, if i < 2 then w.clock else w.clockAgain, w.reply) }

  ghost function Moves(w: Call, n: nat): (moves: seq<Move>)
    ensures |moves| == n && forall i | 0 <= i < n :: moves[i] == MoveOf(w, i)
  {
    seq(n, i requires 0 <= i => MoveOf(w, i))
  }

  /** After n moves thread 0 stands there. */
  ghost predicate Reaches(q: State, w: Call, n: nat, pc: Pc, users: set<string>, at: int, answers: seq<set<string>>)
  {
    IsAlone(Steps(q, Moves(w, n)), Alone(pc, users, at, answers))
  }

  ghost function Quiet(users: set<string>, at: int): State { State(users, at, None, map[], at, [], []) }

  /** What one move does to a lone caller that has not answered yet. */
  ghost function NextAlone(pc: Pc, users: set<string>, at: int, m: Move): Alone
  {
    match pc
    case Idle => Alone(Timed(m.clock), users, at, [])
    case Timed(now) => Alone(if now - at <= CACHE_TTL then Fresh(now) else Waiting, users, at, [])
    case Waiting => Alone(Locked, users, at, [])
    case Locked => Alone(LockedTimed(m.clock), users, at, [])
    case LockedTimed(now) => Alone(if now - at <= CACHE_TTL then LockedFresh(now) else Fetching(now), users, at, [])
    case Fetching(now) => Alone(if m.reply.Users? then Fetched(now, m.reply.users) else Failed(now), users, at, [])
    case Fetched(now, fetched) => Alone(Stored(now, fetched), fetched, at, [])
    case Stored(now, fetched) => Alone(Idle, users, now, [fetched])
    case Failed(now) => Alone(if now - at <= STALE_CACHE_TTL then Tolerable(now) else Clearing(now), users, at, [])
    case Tolerable(now) => Alone(if users != {} then Usable(now) else Clearing(now), users, at, [])
    case Clearing(now) => Alone(Emptied(now), {}, at, [])
    case Emptied(now) => Alone(Stamped(now), users, now, [])
    case _ => Alone(Idle, users, at, [users])
  }

  lemma StepAlone(s: State, pc: Pc, users: set<string>, at: int, m: Move)
    requires IsAlone(s, Alone(pc, users, at, [])) && m.thread == 0
    ensures IsAlone(Step(s, m), NextAlone(pc, users, at, m))
  {
  }

  lemma MoveFrom(q: State, w: Call, n: nat, pc: Pc, users: set<string>, at: int)
    requires Reaches(q, w, n, pc, users, at, [])
    ensures var a := NextAlone(pc, users, at, MoveOf(w, n)); Reaches(q, w, n + 1, a.pc, a.users, a.at, a.answers)
  {
    hide Step, IsAlone, NextAlone;
    assert Moves(w, n + 1)[..n] == Moves(w, n);
    StepAlone(Steps(q, Moves(w, n)), pc, users, at, MoveOf(w, n));
    var a := NextAlone(pc, users, at, MoveOf(w, n));
    assert a == Alone(a.pc, a.users, a.at, a.answers);
  }

  lemma NotMoved(users: set<string>, at: int, w: Call)
    ensures Reaches(Quiet(users, at), w, 0, Idle, users, at, [])
  {
  }

  /** A fetched set is answered and stored with the reading; else a nonempty cache at most 30 s old is answered and left
      alone; else the answer is empty, and so is the cache from that reading on. */
  ghost predicate Refreshes(users: set<string>, at: int, now: int, reply: Reply,
                            answer: set<string>, users': set<string>, at': int)
  {
    match reply
    case Users(fetched) => answer == fetched && users' == fetched && at' == now
    case Error =>
      if users != {} && now - at <= 30000 then answer == users && users' == users && at' == at
      else answer == {} && users' == {} && at' == now
  }

  /** The provider with its two fields. */
  class EjabberdAgentPresenceProvider {
    var cachedRecipients: set<string>
    var cachedAt: int

    constructor ()
      ensures cachedRecipients == {} && cachedAt == 0
    {
      cachedRecipients, cachedAt := {}, 0;
    }

    /** A call that nobody interrupts does to the fields, and answers, what the machine does when one thread alone makes
        the call's `moves` moves, with these clock readings and this end of a fetch. */
    method GetOnlineRecipients(clock: int, clockAgain: int, reply: Reply)
      returns (answer: set<string>, ghost moves: nat)
      modifies this
      ensures Reaches(Quiet(old(cachedRecipients), old(cachedAt)), Call(clock, clockAgain, reply), moves,
                      Idle, cachedRecipients, cachedAt, [answer])
      ensures clock - old(cachedAt) <= 3000 || clockAgain - old(cachedAt) <= 3000 ==>
        answer == old(cachedRecipients) && cachedRecipients == old(cachedRecipients) && cachedAt == old(cachedAt)
      ensures clock - old(cachedAt) > 3000 && clockAgain - old(cachedAt) > 3000 ==>
        Refreshes(old(cachedRecipients), old(cachedAt), clockAgain, reply, answer, cachedRecipients, cachedAt)
    {
      hide Reaches, Quiet, Refreshes;
      ghost var u, at := cachedRecipients, cachedAt;
      ghost var q, w := Quiet(u, at), Call(clock, clockAgain, reply);
      NotMoved(u, at, w);
      MoveFrom(q, w, 0, Idle, u, at);
      var now := clock;
      MoveFrom(q, w, 1, Timed(now), u, at);
      if now - cachedAt <= CACHE_TTL {
        MoveFrom(q, w, 2, Fresh(now), u, at);
        return cachedRecipients, 3;
      }
      MoveFrom(q, w, 2, Waiting, u, at);
      MoveFrom(q, w, 3, Locked, u, at);
      now := clockAgain;
      MoveFrom(q, w, 4, LockedTimed(now), u, at);
      if now - cachedAt <= CACHE_TTL {
        MoveFrom(q, w, 5, LockedFresh(now), u, at);
        return cachedRecipients, 6;
      }
      answer, moves := Refresh(now, reply, q, w, 5);
    }

    /** The `try` of a call that decided to refresh. */
    method Refresh(now: int, reply: Reply, ghost q: State, ghost w: Call, ghost n: nat)
      returns (answer: set<string>, ghost moves: nat)
      requires w.clockAgain == now && w.reply == reply
      requires Reaches(q, w, n, Fetching(now), cachedRecipients, cachedAt, [])
      modifies this
      ensures Reaches(q, w, moves, Idle, cachedRecipients, cachedAt, [answer])
      ensures Refreshes(old(cachedRecipients), old(cachedAt), now, reply, answer, cachedRecipients, cachedAt)
    {
      hide Reaches, Quiet;
      ghost var u, at := cachedRecipients, cachedAt;
      MoveFrom(q, w, n, Fetching(now), u, at);
      match reply {
        case Users(refreshed) =>
          cachedRecipients := refreshed;
          MoveFrom(q, w, n + 1, Fetched(now, refreshed), u, at);
          cachedAt := now;
          MoveFrom(q, w, n + 2, Stored(now, refreshed), refreshed, at);
          answer, moves := refreshed, n + 3;
        case Error =>
          MoveFrom(q, w, n + 1, Failed(now), u, at);
          ghost var k := n + 2;
          if now - cachedAt <= STALE_CACHE_TTL {
            MoveFrom(q, w, n + 2, Tolerable(now), u, at);
            k := n + 3;
          }
          if now - cachedAt <= STALE_CACHE_TTL && cachedRecipients != {} {
            MoveFrom(q, w, k, Usable(now), u, at);
            return cachedRecipients, k + 1;
          }
          cachedRecipients := {};
          MoveFrom(q, w, k, Clearing(now), u, at);
          cachedAt := now;
          MoveFrom(q, w, k + 1, Emptied(now), {}, at);
          MoveFrom(q, w, k + 2, Stamped(now), {}, now);
          answer, moves := cachedRecipients, k + 3;
      }
    }
  }
}
