/** The phased bootstrap: containers are grouped by service, and a phase waits until its services meet expectations. */
module Bootstrap {
  import opened Text

  // ---- Containers ----------------------------------------------------------------------

  datatype Container = Container(service: string, state: string, status: string, health: string)

  datatype Observed = Observed(state: string, health: string)

  predicate Contains(s: string, part: string)
  {
    part <= s || (s != "" && Contains(s[1..], part))
  }

  function NormalizeState(c: Container): string
  {
    var state := Lower(c.state);
    if state == "running" then "running"
    else if state == "exited" && Contains(c.status, "Exited (0)") then "completed"
    else if state != "" then state else "unknown"
  }

  function Observe(c: Container): Observed { Observed(NormalizeState(c), Lower(c.health)) }

  /** The observations of one service, in order. */
  function OfService(containers: seq<Container>, service: string): seq<Observed>
  {
    if containers == [] then [] else
    var k := |containers| - 1;
    OfService(containers[..k], service) + if containers[k].service == service then [Observe(containers[k])] else []
  }

  type States = map<string, seq<Observed>>

  method GroupByService(containers: seq<Container>) returns (grouped: States)
    ensures forall s :: s in grouped <==> s != "" && OfService(containers, s) != []
    ensures forall s | s in grouped :: grouped[s] == OfService(containers, s)
  {
    grouped := map[];
    for k := 0 to |containers|
      invariant forall s :: s in grouped <==> s != "" && OfService(containers[..k], s) != []
      invariant forall s | s in grouped :: grouped[s] == OfService(containers[..k], s)
    {
      var c := containers[k];
      assert containers[..k + 1][..k] == containers[..k];
      if c.service == "" {
        continue;
      }
      var earlier := if c.service in grouped then grouped[c.service] else [];
      grouped := grouped[c.service := earlier + [Observe(c)]];
    }
    assert containers[..|containers|] == containers;
  }

  // ---- Expectations --------------------------------------------------------------------

  datatype Expectation =
    | Declared(state: string, instances: Option<int>, health: string)
    | Named(word: string)

  /** What an expectation asks of a service's containers. */
  predicate Meets(e: Expectation, found: seq<Observed>, expectedAgents: int)
  {
    match e
    case Declared(state, instances, health) =>
      && |found| == (if instances.Some? then instances.value else expectedAgents)
      && (forall c | c in found :: c.state == state)
      && (health != "" ==> forall c | c in found :: c.health == health)
    case Named(word) =>
      && found != []
      && if word == "healthy" then
           && (forall c | c in found :: c.state == "running")
           && (exists c | c in found :: c.health != "")
           && (forall c | c in found && c.health != "" :: c.health == "healthy")
         else forall c | c in found :: c.state == word
  }

  datatype Wait = Wait(service: string, expectation: Expectation)

  /** The containers observed of a service; none if it is absent. */
  function Found(states: States, service: string): seq<Observed>
  {
    if service in states then states[service] else []
  }

  predicate IsMet(w: Wait, states: States, expectedAgents: int)
  {
    Meets(w.expectation, Found(states, w.service), expectedAgents)
  }

  /** The services that fail their expectations, in the order they are listed. */
  function Failing(states: States, waits: seq<Wait>, expectedAgents: int): seq<string>
  {
    if waits == [] then [] else
    var k := |waits| - 1;
    Failing(states, waits[..k], expectedAgents) +
    if IsMet(waits[k], states, expectedAgents) then [] else [waits[k].service]
  }

  datatype Reason = WrongCount | WrongState | WrongHealth | NoContainers

  datatype Complaint = Complaint(service: string, reason: Reason)

  function Services(errors: seq<Complaint>): (services: seq<string>)
    ensures |services| == |errors| && forall i | 0 <= i < |errors| :: services[i] == errors[i].service
  {
    seq(|errors|, i requires 0 <= i < |errors| => errors[i].service)
  }

  /** The first thing wrong: the number of containers, then a state, then a health. */
  predicate IsReason(r: Reason, e: Expectation, found: seq<Observed>, expectedAgents: int)
  {
    var size := if e.Declared? then |found| == (if e.instances.Some? then e.instances.value else expectedAgents)
                else found != [];
    var state := if e.Declared? then e.state else if e.word == "healthy" then "running" else e.word;
    if !size then r == (if e.Declared? then WrongCount else NoContainers)
    else if exists c | c in found :: c.state != state then r == WrongState
    else r == WrongHealth
  }

  method CheckService(e: Expectation, found: seq<Observed>, expectedAgents: int) returns (r: Option<Reason>)
    ensures r.None? <==> Meets(e, found, expectedAgents)
    ensures r.Some? ==> IsReason(r.value, e, found, expectedAgents)
  {
    match e {
      case Declared(state, instances, health) =>
        var expected := if instances.Some? then instances.value else expectedAgents;
        if |found| != expected { return Some(WrongCount); }
        if exists c | c in found :: c.state != state { return Some(WrongState); }
        if health != "" && exists c | c in found :: c.health != health { return Some(WrongHealth); }
      case Named(word) =>
        if found == [] { return Some(NoContainers); }
        if word == "healthy" {
          if exists c | c in found :: c.state != "running" { return Some(WrongState); }
          if !(exists c | c in found :: c.health != "") { return Some(WrongHealth); }
          if exists c | c in found && c.health != "" :: c.health != "healthy" { return Some(WrongHealth); }
        } else {
          if exists c | c in found :: c.state != word { return Some(WrongState); }
        }
    }
    r := None;
  }

  /** One error, and only one, for each service that fails its expectation. */
  method PhaseSatisfied(states: States, waits: seq<Wait>, expectedAgents: int)
    returns (ready: bool, errors: seq<Complaint>)
    ensures Services(errors) == Failing(states, waits, expectedAgents)
    ensures ready <==> Satisfied(states, waits, expectedAgents)
    ensures forall c | c in errors :: IsExplained(c, states, waits, expectedAgents)
  {
    hide IsMet, IsReason;
    errors := [];
    for k := 0 to |waits|
      invariant forall c | c in errors :: IsExplained(c, states, waits, expectedAgents)
      invariant Services(errors) == Failing(states, waits[..k], expectedAgents)
    {
      assert waits[..k + 1][..k] == waits[..k];
      var reason := CheckService(waits[k].expectation, Found(states, waits[k].service), expectedAgents);
      Unfolded(waits[k], states, expectedAgents);
      if reason.Some? {
        assert waits[k] in waits;
        errors := errors + [Complaint(waits[k].service, reason.value)];
      }
    }
    assert waits[..|waits|] == waits;
    ready := errors == [];
    NothingFailing(states, waits, expectedAgents);
  }

  lemma Unfolded(w: Wait, states: States, expectedAgents: int)
    ensures IsMet(w, states, expectedAgents) <==> Meets(w.expectation, Found(states, w.service), expectedAgents)
  {
  }

  /** The complaint is about a service of the phase and gives what is wrong with it. */
  ghost predicate IsExplained(c: Complaint, states: States, waits: seq<Wait>, expectedAgents: int)
  {
    exists w :: w in waits && w.service == c.service &&
      IsReason(c.reason, w.expectation, Found(states, w.service), expectedAgents)
  }

  predicate Satisfied(states: States, waits: seq<Wait>, expectedAgents: int)
  {
    forall w | w in waits :: IsMet(w, states, expectedAgents)
  }

  lemma {:induction false} NothingFailing(states: States, waits: seq<Wait>, expectedAgents: int)
    ensures Failing(states, waits, expectedAgents) == [] <==> Satisfied(states, waits, expectedAgents)
  {
    hide IsMet;
    if waits != [] {
      var front, last := waits[..|waits| - 1], waits[|waits| - 1];
      NothingFailing(states, front, expectedAgents);
      assert waits == front + [last];
    }
  }

  // ---- The phases ----------------------------------------------------------------------

  /** One poll made before a phase's deadline: it sees containers, or raises. */
  datatype Poll = Sees(containers: seq<Container>) | Raises

  /** A phase, with what happens to it: whether starting it raises, and its polls. */
  datatype Phase = Phase(waits: seq<Wait>, startRaises: bool, polls: seq<Poll>)

  datatype Event = Started(phase: nat) | Saw(phase: nat, containers: seq<Container>)

  datatype Outcome = Returned(code: int) | Raised

  /** The poll sees containers that, grouped, satisfy the phase. */
  ghost predicate Satisfies(p: Phase, containers: seq<Container>, expectedAgents: int)
  {
    forall w | w in p.waits :: Meets(w.expectation, Seen(containers, w.service), expectedAgents)
  }

  ghost function Seen(containers: seq<Container>, service: string): seq<Observed>
  {
    if service == "" then [] else OfService(containers, service)
  }

  // ---- In terms of the containers themselves -------------------------------------------

  ghost predicate OccursIn(part: string, s: string)
  {
    exists i :: IsAt(part, s, i)
  }

  ghost predicate IsAt(part: string, s: string, i: int) { 0 <= i <= |s| - |part| && s[i..i + |part|] == part }

  lemma {:induction false} ContainsIsOccursIn(s: string, part: string)
    ensures Contains(s, part) <==> OccursIn(part, s)
  {
    if part <= s {
      assert IsAt(part, s, 0);
    } else if s != "" {
      ContainsIsOccursIn(s[1..], part);
      if OccursIn(part, s) {
        var i :| IsAt(part, s, i);
        assert i > 0 && s[1..][i - 1..i - 1 + |part|] == s[i..i + |part|];
        assert IsAt(part, s[1..], i - 1);
      }
      if OccursIn(part, s[1..]) {
        var i :| IsAt(part, s[1..], i);
        assert s[1..][i..i + |part|] == s[i + 1..i + 1 + |part|];
        assert IsAt(part, s, i + 1);
      }
    }
  }

  ghost predicate ExitedWithZero(c: Container)
  {
    Lower(c.state) == "exited" && OccursIn("Exited (0)", c.status)
  }

  /** The container counts as being in that state. */
  ghost predicate CountsAs(c: Container, word: string)
  {
    if ExitedWithZero(c) then word == "completed"
    else if c.state == "" then word == "unknown"
    else Lower(c.state) == word
  }

  /** The state and the health a container is observed with. A failed job is not completed. */
  lemma ObservedInWords(c: Container)
    ensures forall word :: Observe(c).state == word <==> CountsAs(c, word)
    ensures Observe(c).state == "completed" <==> ExitedWithZero(c) || Lower(c.state) == "completed"
    ensures Observe(c).state == "running" <==> Lower(c.state) == "running"
    ensures Observe(c).health == Lower(c.health)
  {
    ContainsIsOccursIn(c.status, "Exited (0)");
  }

  /** The places of a service's containers. */
  ghost function Of(containers: seq<Container>, service: string): set<int>
  {
    set i | 0 <= i < |containers| && service != "" && containers[i].service == service
  }

  ghost predicate AllCountAs(containers: seq<Container>, places: set<int>, word: string)
    requires forall i | i in places :: 0 <= i < |containers|
  {
    forall i | i in places :: CountsAs(containers[i], word)
  }

  /** A declared expectation asks for a number of containers, all in the state and, if given, of the health. A word asks
      for containers, all in that state; "healthy" asks for running ones of which some report their health and none
      reports another. */
  ghost predicate Expected(e: Expectation, containers: seq<Container>, service: string, expectedAgents: int)
  {
    var places := Of(containers, service);
    match e
    case Declared(state, instances, health) =>
      && |places| == (if instances.Some? then instances.value else expectedAgents)
      && AllCountAs(containers, places, state)
      && (health != "" ==> forall i | i in places :: Lower(containers[i].health) == health)
    case Named(word) =>
      && places != {}
      && AllCountAs(containers, places, if word == "healthy" then "running" else word)
      && (word == "healthy" ==>
            && (exists i :: i in places && containers[i].health != "")
            && (forall i | i in places && containers[i].health != "" :: Lower(containers[i].health) == "healthy"))
  }

  /** The observations of a service are those of its containers, one each. */
  lemma {:induction false} SeenInWords(containers: seq<Container>, service: string)
    ensures |Seen(containers, service)| == |Of(containers, service)|
    ensures forall o :: o in Seen(containers, service) <==>
      exists i :: i in Of(containers, service) && Observe(containers[i]) == o
  {
    hide Observe;
    if service != "" && containers != [] {
      var k := |containers| - 1;
      var front := containers[..k];
      SeenInWords(front, service);
      var places, earlier := Of(containers, service), Of(front, service);
      assert forall i | i in earlier :: front[i] == containers[i];
      if containers[k].service == service {
        assert places == earlier + {k};
        assert Seen(containers, service) == Seen(front, service) + [Observe(containers[k])];
        forall o ensures o in Seen(containers, service) <==> exists i :: i in places && Observe(containers[i]) == o {
          if o == Observe(containers[k]) { assert k in places; }
        }
      } else {
        assert places == earlier;
      }
    }
  }

  lemma MeetsInWords(e: Expectation, containers: seq<Container>, service: string, expectedAgents: int)
    ensures Meets(e, Seen(containers, service), expectedAgents) <==> Expected(e, containers, service, expectedAgents)
  {
    hide Seen, Observe, CountsAs, Of;
    var found, places := Seen(containers, service), Of(containers, service);
    SeenInWords(containers, service);
    PlacesAreInRange(containers, service);
    forall i | i in places ensures Observe(containers[i]) in found {
    }
    forall c | 0 <= c < |containers|
      ensures forall word :: Observe(containers[c]).state == word <==> CountsAs(containers[c], word)
      ensures Observe(containers[c]).health == Lower(containers[c].health)
    {
      ObservedInWords(containers[c]);
    }
    assert forall word :: AllCountAs(containers, places, word) <==> forall o | o in found :: o.state == word;
    assert found == [] <==> places == {};
  }

  lemma PlacesAreInRange(containers: seq<Container>, service: string)
    ensures forall i | i in Of(containers, service) :: 0 <= i < |containers| && containers[i].service == service
  {
  }

  /** The containers are as every service the phase waits for is expected to be. */
  ghost predicate Serves(p: Phase, containers: seq<Container>, expectedAgents: int)
  {
    forall w | w in p.waits :: Expected(w.expectation, containers, w.service, expectedAgents)
  }

  lemma SatisfiesInWords(p: Phase, containers: seq<Container>, expectedAgents: int)
    ensures Satisfies(p, containers, expectedAgents) <==> Serves(p, containers, expectedAgents)
  {
    hide Meets, Expected, Seen;
    forall w | w in p.waits
      ensures Meets(w.expectation, Seen(containers, w.service), expectedAgents) <==>
        Expected(w.expectation, containers, w.service, expectedAgents)
    {
      MeetsInWords(w.expectation, containers, w.service, expectedAgents);
    }
  }

  datatype PhaseEnd = Ready | TimedOut | Broken

  /** A phase ends with the first poll that satisfies it or raises; without one it times out. */
  ghost function EndOf(p: Phase, polls: seq<Poll>, expectedAgents: int): PhaseEnd
  {
    if polls == [] then TimedOut
    else if polls[0].Raises? then Broken
    else if Satisfies(p, polls[0].containers, expectedAgents) then Ready
    else EndOf(p, polls[1..], expectedAgents)
  }

  ghost predicate Completes(p: Phase, expectedAgents: int) { EndOfPhase(p, expectedAgents) == Ready }

  /** Phases start in order, each after the first directly after a sight that satisfies the one before. */
  ghost predicate Gated(log: seq<Event>, phases: seq<Phase>, expectedAgents: int)
  {
    forall i | 0 <= i < |log| :: GatedAt(log, i, phases, expectedAgents)
  }

  ghost predicate GatedAt(log: seq<Event>, i: nat, phases: seq<Phase>, expectedAgents: int)
    requires i < |log|
  {
    log[i].Started? && log[i].phase > 0 ==>
      i > 0 && log[i].phase <= |phases| && SatisfiedBy(log[i - 1], log[i].phase - 1, phases, expectedAgents)
  }

  ghost predicate SatisfiedBy(e: Event, k: nat, phases: seq<Phase>, expectedAgents: int)
  {
    e.Saw? && e.phase == k && k < |phases| && Satisfies(phases[k], e.containers, expectedAgents)
  }

  ghost function Starts(log: seq<Event>): seq<nat>
  {
    if log == [] then [] else Starts(log[..|log| - 1]) + if log[|log| - 1].Started? then [log[|log| - 1].phase] else []
  }

  ghost predicate Counting(s: seq<nat>) { forall i | 0 <= i < |s| :: s[i] == i }

  lemma SightSatisfies(p: Phase, containers: seq<Container>, states: States, expectedAgents: int)
    requires forall s :: Found(states, s) == Seen(containers, s)
    ensures Satisfied(states, p.waits, expectedAgents) <==> Satisfies(p, containers, expectedAgents)
  {
    hide Meets, Found, Seen;
    assert forall w: Wait :: IsMet(w, states, expectedAgents) <==>
      Meets(w.expectation, Seen(containers, w.service), expectedAgents);
  }

  // ---- What a run observes -------------------------------------------------------------

  /** The sights of the polls, up to the one that ends the phase. */
  ghost function Sights(p: Phase, polls: seq<Poll>, k: nat, expectedAgents: int): seq<Event>
  {
    if polls == [] || polls[0].Raises? then []
    else [Saw(k, polls[0].containers)] +
         if Satisfies(p, polls[0].containers, expectedAgents) then [] else Sights(p, polls[1..], k, expectedAgents)
  }

  ghost function PhaseLog(p: Phase, k: nat, expectedAgents: int): seq<Event>
  {
    [Started(k)] + if p.startRaises then [] else Sights(p, p.polls, k, expectedAgents)
  }

  /** The log once the first n phases have been started. */
  ghost function RunLog(phases: seq<Phase>, n: nat, expectedAgents: int): seq<Event>
    requires n <= |phases|
  {
    if n == 0 then [] else RunLog(phases, n - 1, expectedAgents) + PhaseLog(phases[n - 1], n - 1, expectedAgents)
  }

  /** Every sight is what one of its phase's own polls saw. */
  ghost predicate Genuine(log: seq<Event>, phases: seq<Phase>)
  {
    forall i | 0 <= i < |log| && log[i].Saw? ::
      log[i].phase < |phases| && Sees(log[i].containers) in phases[log[i].phase].polls
  }

  lemma {:induction false} SightsAreOfThePolls(p: Phase, polls: seq<Poll>, k: nat, expectedAgents: int)
    ensures forall e | e in Sights(p, polls, k, expectedAgents) :: e.Saw? && e.phase == k && Sees(e.containers) in polls
  {
    hide Satisfies;
    if polls != [] && polls[0].Sees? {
      SightsAreOfThePolls(p, polls[1..], k, expectedAgents);
      assert polls[0] == Sees(polls[0].containers);
    }
  }

  lemma {:induction false} RunLogIsGenuine(phases: seq<Phase>, n: nat, expectedAgents: int)
    requires n <= |phases|
    ensures Genuine(RunLog(phases, n, expectedAgents), phases)
  {
    hide Sights;
    if n > 0 {
      RunLogIsGenuine(phases, n - 1, expectedAgents);
      var p := phases[n - 1];
      SightsAreOfThePolls(p, p.polls, n - 1, expectedAgents);
      var front, back := RunLog(phases, n - 1, expectedAgents), PhaseLog(p, n - 1, expectedAgents);
      var log := front + back;
      forall i | 0 <= i < |log| && log[i].Saw?
        ensures log[i].phase < |phases| && Sees(log[i].containers) in phases[log[i].phase].polls
      {
        if i >= |front| {
          assert log[i] == back[i - |front|];
          assert back[i - |front|] in Sights(p, p.polls, n - 1, expectedAgents);
        }
      }
    }
  }

  /** Groups the containers and judges the phase by them. */
  method Judge(p: Phase, containers: seq<Container>, expectedAgents: int) returns (ready: bool)
    ensures ready <==> Satisfies(p, containers, expectedAgents)
  {
    hide IsMet, Meets, OfService;
    var states := GroupByService(containers);
    var errors;
    ready, errors := PhaseSatisfied(states, p.waits, expectedAgents);
    assert forall s :: Found(states, s) == Seen(containers, s);
    SightSatisfies(p, containers, states, expectedAgents);
  }

  lemma OneByOne<T>(log: seq<T>, e: T, rest: seq<T>)
    ensures log + ([e] + rest) == (log + [e]) + rest
  {
  }

  lemma SightIsNoStart(log: seq<Event>, k: nat, containers: seq<Container>)
    ensures Starts(log + [Saw(k, containers)]) == Starts(log)
  {
    assert (log + [Saw(k, containers)])[..|log|] == log;
  }

  /** The sights after the first one. */
  ghost function Later(p: Phase, polls: seq<Poll>, k: nat, expectedAgents: int): seq<Event>
    requires polls != [] && polls[0].Sees?
  {
    if Satisfies(p, polls[0].containers, expectedAgents) then [] else Sights(p, polls[1..], k, expectedAgents)
  }

  /** One more sight, and what is left of the polls. */
  lemma NextSight(p: Phase, polls: seq<Poll>, k: nat, expectedAgents: int, log: seq<Event>)
    requires polls != [] && polls[0].Sees?
    ensures var more := log + [Saw(k, polls[0].containers)];
      && Starts(more) == Starts(log)
      && log + Sights(p, polls, k, expectedAgents) ==
         more + Later(p, polls, k, expectedAgents)
  {
    hide Satisfies, Starts;
    SightIsNoStart(log, k, polls[0].containers);
    OneByOne(log, Saw(k, polls[0].containers), Later(p, polls, k, expectedAgents));
  }

  /** Polls until a sight satisfies the phase. */
  method AwaitPhase(p: Phase, k: nat, expectedAgents: int, log: seq<Event>) returns (end: PhaseEnd, log': seq<Event>)
    ensures end == EndOf(p, p.polls, expectedAgents)
    ensures log' == log + Sights(p, p.polls, k, expectedAgents)
    ensures Starts(log') == Starts(log)
    ensures end == Ready ==> log' != log && LastSightSatisfies(log', p, k, expectedAgents)
  {
    hide Satisfies, Starts;
    log' := log;
    for i := 0 to |p.polls|
      invariant EndOf(p, p.polls, expectedAgents) == EndOf(p, p.polls[i..], expectedAgents)
      invariant log' + Sights(p, p.polls[i..], k, expectedAgents) == log + Sights(p, p.polls, k, expectedAgents)
      invariant |log| <= |log'| && Starts(log') == Starts(log)
    {
      assert p.polls[i..][0] == p.polls[i] && p.polls[i..][1..] == p.polls[i + 1..];
      if p.polls[i].Raises? {
        return Broken, log';
      }
      var ready := Judge(p, p.polls[i].containers, expectedAgents);
      NextSight(p, p.polls[i..], k, expectedAgents, log');
      log' := log' + [Saw(k, p.polls[i].containers)];
      if ready {
        return Ready, log';
      }
    }
    end := TimedOut;
  }

  ghost predicate LastSightSatisfies(log: seq<Event>, p: Phase, k: nat, expectedAgents: int)
  {
    && log != [] && log[|log| - 1].Saw? && log[|log| - 1].phase == k
    && Satisfies(p, log[|log| - 1].containers, expectedAgents)
  }

  lemma GatedStart(log: seq<Event>, k: nat, phases: seq<Phase>, expectedAgents: int)
    requires Gated(log, phases, expectedAgents) && k <= |phases|
    requires k > 0 ==> log != [] && SatisfiedBy(log[|log| - 1], k - 1, phases, expectedAgents)
    ensures Gated(log + [Started(k)], phases, expectedAgents)
    ensures Starts(log + [Started(k)]) == Starts(log) + [k]
  {
    hide SatisfiedBy;
    var l := log + [Started(k)];
    assert l[..|l| - 1] == log;
    forall i | 0 <= i < |l| ensures GatedAt(l, i, phases, expectedAgents) {
      if i < |log| {
        assert GatedAt(log, i, phases, expectedAgents) && l[i] == log[i];
        if i > 0 { assert l[i - 1] == log[i - 1]; }
      }
    }
  }

  lemma GatedSights(log: seq<Event>, log': seq<Event>, phases: seq<Phase>, expectedAgents: int)
    requires Gated(log, phases, expectedAgents) && log <= log'
    requires forall i | |log| <= i < |log'| :: log'[i].Saw?
    ensures Gated(log', phases, expectedAgents)
  {
    hide SatisfiedBy;
    forall i | 0 <= i < |log'| ensures GatedAt(log', i, phases, expectedAgents) {
      if i < |log| {
        assert GatedAt(log, i, phases, expectedAgents) && log'[i] == log[i];
        if i > 0 { assert log'[i - 1] == log[i - 1]; }
      }
    }
  }

  /** Starts one phase and waits for it. */
  method RunPhase(p: Phase, k: nat, expectedAgents: int, log: seq<Event>, ghost phases: seq<Phase>)
    returns (end: PhaseEnd, log': seq<Event>)
    requires k < |phases| && phases[k] == p && Gated(log, phases, expectedAgents)
    requires k > 0 ==> log != [] && SatisfiedBy(log[|log| - 1], k - 1, phases, expectedAgents)
    ensures Gated(log', phases, expectedAgents) && Starts(log') == Starts(log) + [k]
    ensures log' == log + PhaseLog(p, k, expectedAgents)
    ensures end == EndOfPhase(p, expectedAgents)
    ensures end == Ready ==> log' != [] && SatisfiedBy(log'[|log'| - 1], k, phases, expectedAgents)
  {
    hide Gated, Starts, Satisfies, EndOf, Sights;
    GatedStart(log, k, phases, expectedAgents);
    log' := log + [Started(k)];
    if p.startRaises {
      return Broken, log';
    }
    ghost var begun := log';
    end, log' := AwaitPhase(p, k, expectedAgents, log');
    SightsAreOfThePolls(p, p.polls, k, expectedAgents);
    forall i | |begun| <= i < |log'| ensures log'[i].Saw? {
      assert log'[i] in Sights(p, p.polls, k, expectedAgents);
    }
    GatedSights(begun, log', phases, expectedAgents);
  }

  /** A phase whose start raises is broken. */
  ghost function EndOfPhase(p: Phase, expectedAgents: int): PhaseEnd
  {
    if p.startRaises then Broken else EndOf(p, p.polls, expectedAgents)
  }

  /** The polls before the j-th see containers and do not serve the phase. */
  ghost predicate Waits(p: Phase, j: nat, expectedAgents: int)
    requires j <= |p.polls|
  {
    forall i | 0 <= i < j :: p.polls[i].Sees? && !Serves(p, p.polls[i].containers, expectedAgents)
  }

  ghost predicate ServedAt(p: Phase, j: int, expectedAgents: int)
  {
    0 <= j < |p.polls| && p.polls[j].Sees? && Serves(p, p.polls[j].containers, expectedAgents) &&
    Waits(p, j, expectedAgents)
  }

  ghost predicate BrokenAt(p: Phase, j: int, expectedAgents: int)
  {
    0 <= j < |p.polls| && p.polls[j].Raises? && Waits(p, j, expectedAgents)
  }

  /** The phase was started and one of its polls, with none raising before, saw every service as expected. */
  ghost predicate IsServed(p: Phase, expectedAgents: int)
  {
    !p.startRaises && exists j :: ServedAt(p, j, expectedAgents)
  }

  /** How a phase ends, in terms of what its polls saw. */
  lemma EndInWords(p: Phase, expectedAgents: int)
    ensures EndOfPhase(p, expectedAgents) == Ready <==> IsServed(p, expectedAgents)
    ensures EndOfPhase(p, expectedAgents) == Broken <==> p.startRaises || exists j :: BrokenAt(p, j, expectedAgents)
    ensures EndOfPhase(p, expectedAgents) == TimedOut <==> !p.startRaises && Waits(p, |p.polls|, expectedAgents)
  {
    EndAfter(p, 0, expectedAgents);
    assert p.polls[0..] == p.polls;
  }

  lemma {:induction false} EndAfter(p: Phase, i: nat, expectedAgents: int)
    requires i <= |p.polls| && Waits(p, i, expectedAgents)
    ensures EndOf(p, p.polls[i..], expectedAgents) == Ready <==> exists j :: ServedAt(p, j, expectedAgents)
    ensures EndOf(p, p.polls[i..], expectedAgents) == Broken <==> exists j :: BrokenAt(p, j, expectedAgents)
    ensures EndOf(p, p.polls[i..], expectedAgents) == TimedOut <==> Waits(p, |p.polls|, expectedAgents)
    decreases |p.polls| - i
  {
    hide Serves, Satisfies;
    if i < |p.polls| {
      assert p.polls[i..][0] == p.polls[i] && p.polls[i..][1..] == p.polls[i + 1..];
      if p.polls[i].Raises? {
        assert BrokenAt(p, i, expectedAgents);
      } else {
        SatisfiesInWords(p, p.polls[i].containers, expectedAgents);
        if Serves(p, p.polls[i].containers, expectedAgents) {
          assert ServedAt(p, i, expectedAgents);
        } else {
          EndAfter(p, i + 1, expectedAgents);
        }
      }
    }
  }

  /** There are containers of the service, and all have exited with 0 (or are in a state called "completed"). */
  ghost predicate AllExitedWithZero(containers: seq<Container>, service: string)
  {
    && Of(containers, service) != {}
    && forall i | i in Of(containers, service) ::
      ExitedWithZero(containers[i]) || Lower(containers[i].state) == "completed"
  }

  /** A phase that waits for a service to be completed is served only by a poll that saw it so: a failed job opens no
      next phase. */
  lemma CompletedMeansExitedWithZero(p: Phase, service: string, expectedAgents: int)
    requires IsServed(p, expectedAgents) && Wait(service, Named("completed")) in p.waits
    ensures exists poll :: poll in p.polls && poll.Sees? && AllExitedWithZero(poll.containers, service)
  {
    hide ExitedWithZero;
    var j :| ServedAt(p, j, expectedAgents);
    var containers := p.polls[j].containers;
    assert p.polls[j] == Sees(containers);
    assert Expected(Named("completed"), containers, service, expectedAgents);
    PlacesAreInRange(containers, service);
  }

  /** In the log of a run, a phase after the first starts directly after a sight of the phase before, which one of that
      phase's own polls saw and which served it. */
  lemma StartFollowsItsSight(log: seq<Event>, i: nat, phases: seq<Phase>, expectedAgents: int)
    requires Gated(log, phases, expectedAgents) && Genuine(log, phases)
    requires i < |log| && log[i].Started? && log[i].phase > 0
    ensures i > 0 && log[i - 1].Saw? && log[i - 1].phase == log[i].phase - 1 < |phases|
    ensures Sees(log[i - 1].containers) in phases[log[i].phase - 1].polls
    ensures Serves(phases[log[i].phase - 1], log[i - 1].containers, expectedAgents)
  {
    hide Satisfies, Serves;
    assert GatedAt(log, i, phases, expectedAgents);
    SatisfiesInWords(phases[log[i].phase - 1], log[i - 1].containers, expectedAgents);
  }

  lemma AllAreServed(phases: seq<Phase>, n: nat, expectedAgents: int)
    requires n <= |phases|
    ensures AllComplete(phases, n, expectedAgents) <==> forall k | 0 <= k < n :: IsServed(phases[k], expectedAgents)
  {
    hide EndOfPhase, IsServed;
    forall k | 0 <= k < n ensures Completes(phases[k], expectedAgents) <==> IsServed(phases[k], expectedAgents) {
      EndInWords(phases[k], expectedAgents);
    }
  }

  /** What a run returns after starting n phases, the last of which decides. */
  ghost function OutcomeAfter(phases: seq<Phase>, n: nat, expectedAgents: int, finalStatus: int): Outcome
    requires n <= |phases|
  {
    if n == 0 then Returned(finalStatus) else
    match EndOfPhase(phases[n - 1], expectedAgents)
    case Ready => Returned(finalStatus)
    case TimedOut => Returned(1)
    case Broken => Raised
  }

  /** A port conflict starts nothing. Otherwise phases are started in order, each only directly after one of the polls
      of the phase before saw that one satisfied; the first phase that is not completed decides the outcome. */
  method BootstrapRuntime(conflicts: seq<int>, phases: seq<Phase>, expectedAgents: int, finalStatus: int)
    returns (outcome: Outcome, log: seq<Event>)
    ensures conflicts != [] ==> log == [] && outcome == Returned(1)
    ensures Gated(log, phases, expectedAgents) && Counting(Starts(log)) && |Starts(log)| <= |phases|
    ensures Genuine(log, phases) && log == RunLog(phases, |Starts(log)|, expectedAgents)
    ensures |Starts(log)| > 0 ==> AllComplete(phases, |Starts(log)| - 1, expectedAgents)
    ensures conflicts == [] ==> outcome == OutcomeAfter(phases, |Starts(log)|, expectedAgents, finalStatus)
    ensures conflicts == [] && |Starts(log)| < |phases| ==>
      |Starts(log)| > 0 && !Completes(phases[|Starts(log)| - 1], expectedAgents)
    ensures forall k | 0 <= k < |Starts(log)| - 1 :: IsServed(phases[k], expectedAgents)
    ensures outcome == Returned(0) ==>
      conflicts == [] && finalStatus == 0 && forall k | 0 <= k < |phases| :: IsServed(phases[k], expectedAgents)
    ensures conflicts == [] && (forall k | 0 <= k < |phases| :: IsServed(phases[k], expectedAgents)) ==>
      outcome == Returned(finalStatus) && |Starts(log)| == |phases|
  {
    hide Gated, Starts, SatisfiedBy, EndOf, PhaseLog, Genuine, IsServed, EndOfPhase;
    NoEvents(phases, expectedAgents);
    log := [];
    if conflicts != [] {
      return Returned(1), [];
    }
    for k := 0 to |phases|
      invariant Gated(log, phases, expectedAgents) && Counting(Starts(log)) && |Starts(log)| == k
      invariant k > 0 ==> log != [] && SatisfiedBy(log[|log| - 1], k - 1, phases, expectedAgents)
      invariant AllComplete(phases, k, expectedAgents) && log == RunLog(phases, k, expectedAgents)
    {
      var end;
      end, log := RunPhase(phases[k], k, expectedAgents, log, phases);
      if end != Ready {
        RunLogIsGenuine(phases, k + 1, expectedAgents);
        AllAreServed(phases, k, expectedAgents);
        AllAreServed(phases, k + 1, expectedAgents);
        return if end == Broken then Raised else Returned(1), log;
      }
    }
    RunLogIsGenuine(phases, |phases|, expectedAgents);
    AllAreServed(phases, |phases|, expectedAgents);
    outcome := Returned(finalStatus);
  }

  lemma NoEvents(phases: seq<Phase>, expectedAgents: int)
    ensures Gated([], phases, expectedAgents) && Starts([]) == [] && Genuine([], phases)
  {
  }

  ghost predicate AllComplete(phases: seq<Phase>, n: nat, expectedAgents: int)
    requires n <= |phases|
  {
    forall i | 0 <= i < n :: Completes(phases[i], expectedAgents)
  }
}
