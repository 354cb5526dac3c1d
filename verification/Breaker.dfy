/** The circuit breaker, and every run of calls and late reports against it. Times are
    nanoseconds, read in lock order; shares are reals. */
module Breaker {
  import opened Wrappers

  datatype Status = Closed | Open | HalfOpen

  datatype Settings = Settings(ratio: real, minRequests: int, openFor: int)

  datatype Core = Core(status: Status, successes: nat, failures: nat, openedAt: int, probing: bool)

  /** The function `Allow` hands out, by which report it makes. */
  datatype Permit = NoReport | ForCall | ForProbe

  /** What the breaker goes by. When call outcomes trip it is kept abstract here, so that the
      division behind it stays out of the reasoning about runs. */
  datatype Rules = Rules(on: bool, trips: (nat, nat) -> bool, minRequests: int, openFor: int)

  /** Enough outcomes, and too many of them failures. */
  predicate Trips(c: Settings, successes: nat, failures: nat) {
    successes + failures >= c.minRequests
    && successes + failures > 0 && failures as real / (successes + failures) as real >= c.ratio
  }

  function RulesOf(c: Settings): Rules {
    Rules(c.ratio > 0.0, (s: nat, f: nat) => Trips(c, s, f), c.minRequests, c.openFor)
  }

  /** A breaker that does something, with the defaults filled in: it takes the minimum of
      outcomes to trip, and where any outcomes trip, that many failures alone do. */
  ghost predicate Active(c: Rules) {
    && c.on && c.minRequests > 0 && c.openFor > 0
    && (forall s: nat, f: nat {:trigger c.trips(s, f)} | c.trips(s, f) ::
          s + f >= c.minRequests && c.trips(0, c.minRequests))
  }

  /** Settings with the defaults filled in and the breaker on. */
  predicate Proper(c: Settings) {
    c.ratio > 0.0 && c.minRequests > 0 && c.openFor > 0
  }

  lemma RulesActive(c: Settings)
    requires Proper(c)
    ensures Active(RulesOf(c))
  {
    forall s: nat, f: nat | Trips(c, s, f) ensures Trips(c, 0, c.minRequests) {
      ShareAtMostOne(s, f);
      WholeShare(c.minRequests);
    }
  }

  lemma WholeShare(n: nat)
    requires n > 0
    ensures n as real / (0 + n) as real == 1.0
  {
  }

  lemma ShareAtMostOne(s: nat, f: nat)
    requires s + f > 0
    ensures f as real / (s + f) as real <= 1.0
  {
  }

  // ---- one operation at a time ----

  /** `maybeHalfOpen`. */
  function Promoted(c: Rules, b: Core, now: int): Core {
    if b.status.Open? && now - b.openedAt >= c.openFor then b.(status := HalfOpen, probing := false) else b
  }

  function Admission(c: Rules, b: Core, now: int): (Core, Option<Permit>) {
    if !c.on then (b, Some(NoReport))
    else
      var p := Promoted(c, b, now);
      match p.status
      case Open => (p, None)
      case HalfOpen => if p.probing then (p, None) else (p.(probing := true), Some(ForProbe))
      case Closed => (p, Some(ForCall))
  }

  function Tripped(b: Core, now: int): Core {
    b.(status := Open, successes := 0, failures := 0, openedAt := now)
  }

  function Reported(c: Rules, b: Core, success: bool, now: int): Core {
    var n := b.(successes := b.successes + if success then 1 else 0, failures := b.failures + if success then 0 else 1);
    Weighed(c, n, c.trips(n.successes, n.failures), now)
  }

  function Weighed(c: Rules, n: Core, trips: bool, now: int): Core {
    if trips then Tripped(n, now)
    else if n.successes + n.failures >= c.minRequests * 2 then n.(successes := 0, failures := 0)
    else n
  }

  function ProbeReported(b: Core, success: bool, now: int): Core {
    var n := b.(probing := false);
    if success then n.(status := Closed, successes := 0, failures := 0) else Tripped(n, now)
  }

  class Breaker {
    const failureRatio: real
    const minRequests: int
    const openFor: int
    var status: Status
    var successes: nat
    var failures: nat
    var openedAt: int
    var probing: bool

    function View(): Core
      reads this
    {
      Core(status, successes, failures, openedAt, probing)
    }

    function Config(): Settings {
      Settings(failureRatio, minRequests, openFor)
    }

    function Ruling(): Rules {
      RulesOf(Config())
    }

    constructor (c: Settings)
      ensures View() == Core(Closed, 0, 0, 0, false)
      ensures Config() == Settings(c.ratio, if c.minRequests <= 0 then 20 else c.minRequests,
                                   if c.openFor <= 0 then 10_000_000_000 else c.openFor)
    {
      failureRatio := c.ratio;
      minRequests := if c.minRequests <= 0 then 20 else c.minRequests;
      openFor := if c.openFor <= 0 then 10_000_000_000 else c.openFor;
      status, successes, failures, openedAt, probing := Closed, 0, 0, 0, false;
    }

    method MaybeHalfOpen(now: int)
      modifies this`status, this`probing
      ensures View() == Promoted(Ruling(), old(View()), now)
    {
      if status == Open && now - openedAt >= openFor {
        status := HalfOpen;
        probing := false;
      }
    }

    /** `State`: even asking may promote. */
    method State(now: int) returns (s: Status)
      modifies this`status, this`probing
      ensures View() == Promoted(Ruling(), old(View()), now) && s == status
    {
      MaybeHalfOpen(now);
      s := status;
    }

    method Allow(now: int) returns (permit: Option<Permit>)
      modifies this`status, this`probing
      ensures (View(), permit) == Admission(Ruling(), old(View()), now)
    {
      if failureRatio <= 0.0 {
        return Some(NoReport);
      }
      MaybeHalfOpen(now);
      match status {
        case Open => return None;
        case HalfOpen =>
          if probing {
            return None;
          }
          probing := true;
          return Some(ForProbe);
        case Closed => return Some(ForCall);
      }
    }

    method Trip(now: int)
      modifies this
      ensures View() == Tripped(old(View()), now)
    {
      openedAt := now;
      successes, failures := 0, 0;
      status := Open;
    }

    method Report(success: bool, now: int)
      requires minRequests > 0
      modifies this
      ensures View() == Reported(Ruling(), old(View()), success, now)
    {
      if success {
        successes := successes + 1;
      } else {
        failures := failures + 1;
      }
      var total := successes + failures;
      if total < minRequests {
        return;
      }
      if failures as real / total as real >= failureRatio {
        Trip(now);
        return;
      }
      if total >= minRequests * 2 {
        successes, failures := 0, 0;
      }
    }

    method ReportProbe(success: bool, now: int)
      modifies this
      ensures View() == ProbeReported(old(View()), success, now)
    {
      probing := false;
      if success {
        successes, failures := 0, 0;
        status := Closed;
        return;
      }
      Trip(now);
    }
  }

  // ---- runs: calls, late reports, any order ----

  /** `permits` are the calls not reported yet; `since` the call outcomes since the counters
      were last zeroed; `episode` counts entries into half-open and `probed` the episodes
      that admitted a probe, one entry per probe. */
  datatype Sys = Sys(core: Core, now: int, permits: map<nat, Permit>, issued: nat,
                     since: seq<bool>, episode: nat, probed: seq<nat>)

  datatype Event =
    | Call(now: int)
    | Peek(now: int)
    | Finish(id: nat, success: bool, now: int)

  const START := Sys(Core(Closed, 0, 0, 0, false), 0, map[], 0, [], 0, [])

  /** The clock does not go back, and a permit is reported once, while it is out. */
  predicate Enabled(s: Sys, e: Event) {
    s.now <= e.now && (e.Finish? ==> e.id in s.permits)
  }

  function Promote(c: Rules, s: Sys, now: int): Sys {
    var b := Promoted(c, s.core, now);
    s.(core := b, now := now, episode := s.episode + if b.status != s.core.status then 1 else 0)
  }

  function Count(outcomes: seq<bool>, which: bool): nat {
    if outcomes == [] then 0
    else Count(outcomes[..|outcomes| - 1], which) + if outcomes[|outcomes| - 1] == which then 1 else 0
  }

  /** Outcomes are forgotten by a trip, or once twice the minimum came in without one. */
  function Remembered(c: Rules, outcomes: seq<bool>, trips: bool): seq<bool> {
    if trips || |outcomes| >= 2 * c.minRequests then [] else outcomes
  }

  function Next(c: Rules, s: Sys, e: Event): Sys
    requires Enabled(s, e)
  {
    match e
    case Peek(now) => Promote(c, s, now)
    case Call(now) =>
      var (b, permit) := Admission(c, s.core, now);
      var p := Promote(c, s, now).(core := b);
      if permit.None? then p
      else p.(permits := p.permits[p.issued := permit.value], issued := p.issued + 1,
              probed := if permit.value.ForProbe? then p.probed + [p.episode] else p.probed)
    case Finish(id, success, now) =>
      var permit, p := s.permits[id], s.(permits := s.permits - {id}, now := now);
      (match permit
       case NoReport => p
       case ForCall =>
         var outcomes := s.since + [success];
         var trips := c.trips(Count(outcomes, true), Count(outcomes, false));
         p.(core := Reported(c, s.core, success, now), since := Remembered(c, outcomes, trips))
       case ForProbe => p.(core := ProbeReported(s.core, success, now), since := []))
  }

  predicate Legal(c: Rules, run: seq<Event>)
    decreases |run|, 0
  {
    run == [] || (Legal(c, run[..|run| - 1]) && Enabled(Final(c, run[..|run| - 1]), run[|run| - 1]))
  }

  function Final(c: Rules, run: seq<Event>): Sys
    requires Legal(c, run)
    decreases |run|, 1
  {
    if run == [] then START else Next(c, Final(c, run[..|run| - 1]), run[|run| - 1])
  }

  // ---- the invariant of every run ----

  /** The counters are the outcomes since the last reset, and short of tripping. */
  predicate CountersRight(c: Rules, s: Sys) {
    CountersAre(c, s.core, s.since)
  }

  predicate CountersAre(c: Rules, b: Core, since: seq<bool>) {
    && b.successes == Count(since, true) && b.failures == Count(since, false)
    && |since| < 2 * c.minRequests
    && !c.trips(b.successes, b.failures)
  }

  /** One probe per episode, and none yet in a half-open one that is not probing. */
  predicate EpisodesRight(s: Sys) {
    && (forall i, j | 0 <= i < j < |s.probed| :: s.probed[i] < s.probed[j])
    && (forall i | 0 <= i < |s.probed| :: s.probed[i] <= s.episode)
    && (s.core.status.HalfOpen? && !s.core.probing ==> forall i | 0 <= i < |s.probed| :: s.probed[i] < s.episode)
  }

  ghost predicate Inv(c: Rules, s: Sys) {
    CountersRight(c, s) && EpisodesRight(s) && PermitsRight(s)
  }

  lemma {:induction false} CountAll(outcomes: seq<bool>)
    ensures Count(outcomes, true) + Count(outcomes, false) == |outcomes|
  {
    if outcomes != [] {
      CountAll(outcomes[..|outcomes| - 1]);
    }
  }

  lemma CountPush(outcomes: seq<bool>, o: bool, which: bool)
    ensures Count(outcomes + [o], which) == Count(outcomes, which) + if o == which then 1 else 0
  {
    assert (outcomes + [o])[..|outcomes|] == outcomes;
  }

  /** Either everything is forgotten, or the report was only counted. */
  lemma WeighedCounts(c: Rules, n: Core, outcomes: seq<bool>, trips: bool, now: int)
    requires n.successes == Count(outcomes, true) && n.failures == Count(outcomes, false)
    requires n.successes + n.failures == |outcomes| && c.minRequests > 0
    ensures var b, since := Weighed(c, n, trips, now), Remembered(c, outcomes, trips);
      if trips || |outcomes| >= 2 * c.minRequests then since == [] && b.successes == 0 && b.failures == 0
      else since == outcomes && b == n
  {
  }

  lemma NothingTripsNothing(c: Rules)
    requires Active(c)
    ensures !c.trips(0, 0)
  {
  }

  lemma ReportCounts(c: Rules, b: Core, since: seq<bool>, success: bool, now: int)
    requires Active(c) && CountersAre(c, b, since)
    ensures var outcomes := since + [success];
      var trips := c.trips(Count(outcomes, true), Count(outcomes, false));
      CountersAre(c, Reported(c, b, success, now), Remembered(c, outcomes, trips))
  {
    var outcomes := since + [success];
    CountAll(outcomes);
    CountPush(since, success, true);
    CountPush(since, success, false);
    var n := b.(successes := Count(outcomes, true), failures := Count(outcomes, false));
    var trips := c.trips(n.successes, n.failures);
    assert Reported(c, b, success, now) == Weighed(c, n, trips, now);
    WeighedCounts(c, n, outcomes, trips, now);
    NothingTripsNothing(c);
  }

  /** Letting in and asking leave the counters alone. */
  lemma AdmissionKeepsCounts(c: Rules, b: Core, now: int)
    ensures var a := Admission(c, b, now).0; a.successes == b.successes && a.failures == b.failures
    ensures var p := Promoted(c, b, now); p.successes == b.successes && p.failures == b.failures
  {
  }

  lemma CountersFinish(c: Rules, s: Sys, id: nat, success: bool, now: int)
    requires Active(c) && CountersRight(c, s) && Enabled(s, Finish(id, success, now))
    ensures CountersRight(c, Next(c, s, Finish(id, success, now)))
  {
    var u := Next(c, s, Finish(id, success, now));
    match s.permits[id] {
      case NoReport => assert u.core == s.core && u.since == s.since;
      case ForCall =>
        ReportCounts(c, s.core, s.since, success, now);
      case ForProbe =>
        NothingTripsNothing(c);
        assert u.since == [] && u.core.successes == 0 && u.core.failures == 0;
    }
  }

  lemma CountersStep(c: Rules, s: Sys, e: Event)
    requires Active(c) && CountersRight(c, s) && Enabled(s, e)
    ensures CountersRight(c, Next(c, s, e))
  {
    if e.Finish? {
      CountersFinish(c, s, e.id, e.success, e.now);
    } else {
      AdmissionKeepsCounts(c, s.core, e.now);
      var u := Next(c, s, e);
      assert u.since == s.since && u.core.successes == s.core.successes && u.core.failures == s.core.failures;
    }
  }

  /** Any step enters a new half-open episode, lets in the one probe of an episode, or does
      neither; only a new episode is without a probe that was not so before. */
  predicate EpisodeMoves(s: Sys, u: Sys) {
    var entered := u.episode > s.episode;
    && s.episode <= u.episode <= s.episode + 1
    && (u.probed == s.probed
        || (u.probed == s.probed + [u.episode] && u.core.probing
            && (entered || (s.core.status.HalfOpen? && !s.core.probing))))
    && (u.core.status.HalfOpen? && !u.core.probing && !entered ==>
          s.core.status.HalfOpen? && !s.core.probing && u.probed == s.probed)
  }

  lemma EpisodesMove(c: Rules, s: Sys, e: Event)
    requires Active(c) && Enabled(s, e)
    ensures EpisodeMoves(s, Next(c, s, e))
  {
    var u := Next(c, s, e);
    match e {
      case Finish(id, success, now) =>
        assert u.episode == s.episode && u.probed == s.probed;
      case Call(now) =>
      case Peek(now) =>
    }
  }

  lemma MovesKeepEpisodes(s: Sys, u: Sys)
    requires EpisodesRight(s) && EpisodeMoves(s, u)
    ensures EpisodesRight(u)
  {
  }

  lemma EpisodesStep(c: Rules, s: Sys, e: Event)
    requires Active(c) && EpisodesRight(s) && Enabled(s, e)
    ensures EpisodesRight(Next(c, s, e))
  {
    EpisodesMove(c, s, e);
    MovesKeepEpisodes(s, Next(c, s, e));
  }

  predicate PermitsRight(s: Sys) {
    && (forall id | id in s.permits :: id < s.issued && !s.permits[id].NoReport?)
    && (s.core.status.Open? ==> s.core.openedAt <= s.now)
  }

  lemma PermitsStep(c: Rules, s: Sys, e: Event)
    requires Active(c) && PermitsRight(s) && Enabled(s, e)
    ensures PermitsRight(Next(c, s, e))
  {
    match e {
      case Finish(id, _, _) =>
        assert forall x | x in Next(c, s, e).permits :: x in s.permits && Next(c, s, e).permits[x] == s.permits[x];
      case Call(_) =>
      case Peek(_) =>
    }
  }

  lemma StepKeeps(c: Rules, s: Sys, e: Event)
    requires Active(c) && Inv(c, s) && Enabled(s, e)
    ensures Inv(c, Next(c, s, e))
  {
    CountersStep(c, s, e);
    EpisodesStep(c, s, e);
    PermitsStep(c, s, e);
    var u := Next(c, s, e);
    assert CountersRight(c, u) && EpisodesRight(u) && PermitsRight(u);
  }

  lemma {:induction false} RunsKeep(c: Rules, run: seq<Event>)
    requires Active(c) && Legal(c, run)
    ensures Inv(c, Final(c, run))
  {
    if run != [] {
      RunsKeep(c, run[..|run| - 1]);
      StepKeeps(c, Final(c, run[..|run| - 1]), run[|run| - 1]);
    }
  }

  // ---- the theorems ----

  /** The counters hold exactly the call outcomes since the last reset: fewer than twice the
      minimum, and once there are enough to judge, a failure share below the ratio. */
  lemma CountersExact(c: Settings, run: seq<Event>)
    requires Proper(c) && Legal(RulesOf(c), run)
    ensures var s := Final(RulesOf(c), run);
      && s.core.successes == Count(s.since, true) && s.core.failures == Count(s.since, false)
      && s.core.successes + s.core.failures == |s.since| < 2 * c.minRequests
      && (|s.since| >= c.minRequests ==> s.core.failures as real / |s.since| as real < c.ratio)
  {
    RulesActive(c);
    RunsKeep(RulesOf(c), run);
    var s := Final(RulesOf(c), run);
    CountAll(s.since);
    assert !Trips(c, s.core.successes, s.core.failures);
  }

  /** Each half-open episode admits at most one probe, whatever is reported late. */
  lemma OneProbePerEpisode(c: Rules, run: seq<Event>, i: nat, j: nat)
    requires Active(c) && Legal(c, run) && i < j < |Final(c, run).probed|
    ensures Final(c, run).probed[i] < Final(c, run).probed[j]
  {
    RunsKeep(c, run);
  }

  /** The step trips the breaker. */
  predicate TripsAt(c: Rules, s: Sys, e: Event)
    requires Enabled(s, e)
  {
    e.Finish? && match s.permits[e.id]
      case NoReport => false
      case ForCall => var outcomes := s.since + [e.success]; c.trips(Count(outcomes, true), Count(outcomes, false))
      case ForProbe => !e.success
  }

  lemma ReportTripsOnlySo(c: Rules, b: Core, since: seq<bool>, success: bool, now: int)
    requires CountersAre(c, b, since) && !b.status.Open?
    ensures var outcomes := since + [success];
      Reported(c, b, success, now).status.Open? <==> c.trips(Count(outcomes, true), Count(outcomes, false))
  {
    CountPush(since, success, true);
    CountPush(since, success, false);
  }

  lemma ShareReached(bad: real, all: real, ratio: real)
    requires all > 0.0
    ensures bad / all >= ratio <==> bad >= ratio * all
  {
    var share := bad / all;
    assert share * all == bad;
    if share >= ratio {
      assert (share - ratio) * all >= 0.0;
    } else {
      assert (ratio - share) * all > 0.0;
    }
  }

  /** When outcomes trip: there are enough of them and at least the given share failed. */
  lemma TripsExactly(c: Settings, successes: nat, failures: nat)
    requires Proper(c)
    ensures Trips(c, successes, failures) <==>
            successes + failures >= c.minRequests && failures as real >= c.ratio * (successes + failures) as real
  {
    if successes + failures > 0 {
      ShareReached(failures as real, (successes + failures) as real, c.ratio);
    }
  }

  /** A call outcome, given whether it trips. */
  predicate Heard(c: Rules, s: Sys, u: Sys, outcomes: seq<bool>, trips: bool, now: int) {
    if trips then u.core.status.Open? && u.core.openedAt == now && u.since == []
    else u.core.status == s.core.status && u.since == if |outcomes| >= 2 * c.minRequests then [] else outcomes
  }

  lemma OutcomeHeard(c: Rules, s: Sys, id: nat, success: bool, now: int)
    requires Enabled(s, Finish(id, success, now)) && s.permits[id].ForCall? && CountersRight(c, s)
    ensures var outcomes := s.since + [success];
      Heard(c, s, Next(c, s, Finish(id, success, now)), outcomes,
            c.trips(Count(outcomes, true), Count(outcomes, false)), now)
  {
    CountPush(s.since, success, true);
    CountPush(s.since, success, false);
  }

  /** Enough outcomes, and at least the given share of them failures. */
  predicate Reached(c: Settings, outcomes: seq<bool>) {
    |outcomes| >= c.minRequests && Count(outcomes, false) as real >= c.ratio * |outcomes| as real
  }

  lemma OutcomesTrip(c: Settings, outcomes: seq<bool>)
    requires Proper(c)
    ensures RulesOf(c).trips(Count(outcomes, true), Count(outcomes, false)) <==> Reached(c, outcomes)
  {
    CountAll(outcomes);
    TripsExactly(c, Count(outcomes, true), Count(outcomes, false));
  }

  lemma OutcomeJudged(c: Rules, run: seq<Event>, id: nat, success: bool, now: int, trips: bool)
    requires Active(c) && Legal(c, run) && Enabled(Final(c, run), Finish(id, success, now))
    requires Final(c, run).permits[id].ForCall?
    requires var outcomes := Final(c, run).since + [success];
             trips == c.trips(Count(outcomes, true), Count(outcomes, false))
    ensures var s := Final(c, run);
            Heard(c, s, Next(c, s, Finish(id, success, now)), s.since + [success], trips, now)
  {
    RunsKeep(c, run);
    OutcomeHeard(c, Final(c, run), id, success, now);
  }

  /** A call outcome in any run: enough of them and too many failed opens the breaker from now;
      otherwise twice the minimum forgets them; otherwise it is remembered. */
  lemma OutcomeExactly(c: Settings, run: seq<Event>, id: nat, success: bool, now: int)
    requires Proper(c) && Legal(RulesOf(c), run) && Enabled(Final(RulesOf(c), run), Finish(id, success, now))
    requires Final(RulesOf(c), run).permits[id].ForCall?
    ensures var s := Final(RulesOf(c), run); var outcomes := s.since + [success];
      Heard(RulesOf(c), s, Next(RulesOf(c), s, Finish(id, success, now)), outcomes, Reached(c, outcomes), now)
  {
    RulesActive(c);
    var outcomes := Final(RulesOf(c), run).since + [success];
    OutcomesTrip(c, outcomes);
    OutcomeJudged(RulesOf(c), run, id, success, now, Reached(c, outcomes));
  }

  /** Who is let in: a call while closed; a probe while half-open with none out, or once an open
      breaker has been open for its time; nobody else. */
  lemma AdmitsExactly(c: Rules, s: Sys, now: int)
    requires Active(c) && Enabled(s, Call(now))
    ensures var u := Next(c, s, Call(now));
      if s.core.status.Closed? then u.issued == s.issued + 1 && u.permits == s.permits[s.issued := ForCall]
      else if (s.core.status.HalfOpen? && !s.core.probing)
              || (s.core.status.Open? && now >= s.core.openedAt + c.openFor)
      then u.issued == s.issued + 1 && u.permits == s.permits[s.issued := ForProbe]
           && u.core.status.HalfOpen? && u.core.probing
      else u.issued == s.issued && u.permits == s.permits && u.core == s.core
  {
  }

  /** The breaker opens exactly by a failed probe or by call outcomes that reach the minimum
      and the ratio. */
  lemma OpensForAReason(c: Rules, run: seq<Event>, e: Event)
    requires Active(c) && Legal(c, run) && Enabled(Final(c, run), e) && !Final(c, run).core.status.Open?
    ensures Next(c, Final(c, run), e).core.status.Open? <==> TripsAt(c, Final(c, run), e)
  {
    RunsKeep(c, run);
    var s := Final(c, run);
    if e.Finish? && s.permits[e.id].ForCall? {
      ReportTripsOnlySo(c, s.core, s.since, e.success, e.now);
    }
  }

  /** A probe's success, the only thing that closes an open breaker. */
  predicate ProbeSucceeds(s: Sys, e: Event) {
    e.Finish? && e.id in s.permits && s.permits[e.id].ForProbe? && e.success
  }

  /** `s`, an open breaker, and events that neither outlast `openFor` nor rescue it. */
  ghost predicate Shut(c: Rules, s: Sys, more: seq<Event>, until: int)
    decreases |more|
  {
    more == [] || (Enabled(s, more[0]) && more[0].now < until && !ProbeSucceeds(s, more[0])
                   && Shut(c, Next(c, s, more[0]), more[1..], until))
  }

  function Onward(c: Rules, s: Sys, more: seq<Event>, until: int): Sys
    requires Shut(c, s, more, until)
    decreases |more|
  {
    if more == [] then s else Onward(c, Next(c, s, more[0]), more[1..], until)
  }

  /** For `openFor` after a trip no call is admitted, unless a probe let in earlier succeeds:
      not one permit is issued and the breaker is still open. */
  lemma {:induction false} ShutAfterTrip(c: Rules, s: Sys, more: seq<Event>, trip: int)
    requires Active(c) && s.core.status.Open? && s.core.openedAt >= trip && s.now >= trip
    requires Shut(c, s, more, trip + c.openFor)
    ensures var u := Onward(c, s, more, trip + c.openFor);
      u.core.status.Open? && u.issued == s.issued && u.permits.Keys <= s.permits.Keys
    decreases |more|
  {
    if more != [] {
      ShutStep(c, s, more[0], trip);
      ShutAfterTrip(c, Next(c, s, more[0]), more[1..], trip);
    }
  }

  lemma ShutStep(c: Rules, s: Sys, e: Event, trip: int)
    requires Active(c) && s.core.status.Open? && s.core.openedAt >= trip && s.now >= trip
    requires Enabled(s, e) && e.now < trip + c.openFor && !ProbeSucceeds(s, e)
    ensures var u := Next(c, s, e);
      && u.core.status.Open? && u.core.openedAt >= trip && u.now >= trip
      && u.issued == s.issued && u.permits.Keys <= s.permits.Keys
  {
  }

  /** A trip does open the breaker, at the time it happens. */
  lemma TripOpens(c: Rules, s: Sys, e: Event)
    requires Active(c) && CountersRight(c, s) && Enabled(s, e) && TripsAt(c, s, e)
    ensures Next(c, s, e).core.status.Open? && Next(c, s, e).core.openedAt == e.now == Next(c, s, e).now
  {
    var u := Next(c, s, e);
    if s.permits[e.id].ForCall? {
      TrippingReport(c, s.core, s.since, e.success, e.now);
      assert u.core == Reported(c, s.core, e.success, e.now);
    } else {
      assert u.core == ProbeReported(s.core, e.success, e.now);
    }
  }

  lemma TrippingReport(c: Rules, b: Core, since: seq<bool>, success: bool, now: int)
    requires CountersAre(c, b, since)
    requires c.trips(Count(since + [success], true), Count(since + [success], false))
    ensures Reported(c, b, success, now).status.Open? && Reported(c, b, success, now).openedAt == now
  {
    CountPush(since, success, true);
    CountPush(since, success, false);
  }

  // ---- one probe overall ----

  function OutCalls(s: Sys): set<nat> {
    set id | id in s.permits && s.permits[id].ForCall?
  }

  function OutProbes(s: Sys): set<nat> {
    set id | id in s.permits && s.permits[id].ForProbe?
  }

  /** At every trip fewer calls are still out than it takes to trip again. */
  ghost predicate Calm(c: Rules, run: seq<Event>)
    requires Legal(c, run)
  {
    run == [] || (Calm(c, run[..|run| - 1])
      && (TripsAt(c, Final(c, run[..|run| - 1]), run[|run| - 1]) ==> |OutCalls(Final(c, run))| < c.minRequests))
  }

  /** Away from closed, too few calls are out to trip; a probe is out exactly while probing. */
  ghost predicate CalmInv(c: Rules, s: Sys) {
    && (!s.core.status.Closed? ==> |s.since| + |OutCalls(s)| < c.minRequests)
    && (s.core.status.HalfOpen? && s.core.probing ==> |OutProbes(s)| == 1)
    && (!(s.core.status.HalfOpen? && s.core.probing) ==> OutProbes(s) == {})
  }

  lemma CardRemove(all: set<nat>, id: nat)
    ensures |all - {id}| == |all| - if id in all then 1 else 0
  {
    assert id !in all ==> all - {id} == all;
  }

  lemma FinishPermits(c: Rules, s: Sys, id: nat, success: bool, now: int)
    requires Enabled(s, Finish(id, success, now))
    ensures var u := Next(c, s, Finish(id, success, now));
      u.permits == s.permits - {id} && OutCalls(u) == OutCalls(s) - {id} && OutProbes(u) == OutProbes(s) - {id}
  {
  }

  lemma FinishSets(c: Rules, s: Sys, id: nat, success: bool, now: int)
    requires Enabled(s, Finish(id, success, now))
    ensures var u := Next(c, s, Finish(id, success, now));
      && OutCalls(u) == OutCalls(s) - {id} && OutProbes(u) == OutProbes(s) - {id}
      && |OutCalls(u)| == |OutCalls(s)| - (if s.permits[id].ForCall? then 1 else 0)
      && |OutProbes(u)| == |OutProbes(s)| - (if s.permits[id].ForProbe? then 1 else 0)
  {
    FinishPermits(c, s, id, success, now);
    CardRemove(OutCalls(s), id);
    CardRemove(OutProbes(s), id);
  }

  lemma CallSets(c: Rules, s: Sys, now: int)
    requires Active(c) && Inv(c, s) && Enabled(s, Call(now))
    ensures var u, permit := Next(c, s, Call(now)), Admission(c, s.core, now).1;
      && OutCalls(u) == OutCalls(s) + (if permit == Some(ForCall) then {s.issued} else {})
      && OutProbes(u) == OutProbes(s) + (if permit == Some(ForProbe) then {s.issued} else {})
  {
  }

  lemma CalmReport(c: Rules, s: Sys, id: nat, success: bool, now: int)
    requires Active(c) && Inv(c, s) && CalmInv(c, s)
    requires Enabled(s, Finish(id, success, now)) && s.permits[id].ForCall?
    requires TripsAt(c, s, Finish(id, success, now)) ==>
      |OutCalls(Next(c, s, Finish(id, success, now)))| < c.minRequests
    ensures CalmInv(c, Next(c, s, Finish(id, success, now)))
  {
    FinishSets(c, s, id, success, now);
    assert OutProbes(s) - {id} == OutProbes(s);
    if s.core.status.Closed? {
      CalmWhileClosed(c, s.core, s.since, success, now);
    } else {
      assert id in OutCalls(s) && |OutCalls(s)| >= 1;
      CalmWhileOpen(c, s.core, s.since, success, now);
    }
  }

  /** Closed, a report either leaves the breaker closed or trips it with nothing counted. */
  lemma CalmWhileClosed(c: Rules, b: Core, since: seq<bool>, success: bool, now: int)
    requires Active(c) && CountersAre(c, b, since) && b.status.Closed?
    ensures var outcomes := since + [success];
      var trips := c.trips(Count(outcomes, true), Count(outcomes, false));
      var u := Reported(c, b, success, now);
      if trips then u.status.Open? && Remembered(c, outcomes, trips) == [] else u.status.Closed?
  {
    CountPush(since, success, true);
    CountPush(since, success, false);
  }

  /** Otherwise too few outcomes are in to trip or to reset, and the report only counts. */
  lemma CalmWhileOpen(c: Rules, b: Core, since: seq<bool>, success: bool, now: int)
    requires Active(c) && CountersAre(c, b, since) && |since| + 1 < c.minRequests
    ensures var outcomes := since + [success];
      var trips := c.trips(Count(outcomes, true), Count(outcomes, false));
      var u := Reported(c, b, success, now);
      !trips && Remembered(c, outcomes, trips) == outcomes && u.status == b.status && u.probing == b.probing
  {
    CountAll(since + [success]);
    CountPush(since, success, true);
    CountPush(since, success, false);
  }

  lemma CalmProbe(c: Rules, s: Sys, id: nat, success: bool, now: int)
    requires Active(c) && Inv(c, s) && CalmInv(c, s)
    requires Enabled(s, Finish(id, success, now)) && s.permits[id].ForProbe?
    ensures CalmInv(c, Next(c, s, Finish(id, success, now)))
  {
    FinishSets(c, s, id, success, now);
    assert id in OutProbes(s);
    assert |OutProbes(Next(c, s, Finish(id, success, now)))| == 0;
  }

  lemma CalmStep(c: Rules, s: Sys, e: Event)
    requires Active(c) && Inv(c, s) && CalmInv(c, s) && Enabled(s, e)
    requires TripsAt(c, s, e) ==> |OutCalls(Next(c, s, e))| < c.minRequests
    ensures CalmInv(c, Next(c, s, e))
  {
    match e {
      case Finish(id, success, now) =>
        if s.permits[id].ForCall? {
          CalmReport(c, s, id, success, now);
        } else {
          CalmProbe(c, s, id, success, now);
        }
      case Call(now) => CallSets(c, s, now);
      case Peek(now) =>
        assert OutCalls(Next(c, s, e)) == OutCalls(s) && OutProbes(Next(c, s, e)) == OutProbes(s);
    }
  }

  lemma {:induction false} CalmRunsKeep(c: Rules, run: seq<Event>)
    requires Active(c) && Legal(c, run) && Calm(c, run)
    ensures CalmInv(c, Final(c, run))
  {
    if run != [] {
      CalmRunsKeep(c, run[..|run| - 1]);
      RunsKeep(c, run[..|run| - 1]);
      CalmStep(c, Final(c, run[..|run| - 1]), run[|run| - 1]);
    }
  }

  /** In a calm run at most one probe is out, and only a half-open breaker has one. */
  lemma OneProbeOverall(c: Rules, run: seq<Event>)
    requires Active(c) && Legal(c, run) && Calm(c, run)
    ensures |OutProbes(Final(c, run))| <= 1
    ensures OutProbes(Final(c, run)) != {} ==> Final(c, run).core.status.HalfOpen?
  {
    CalmRunsKeep(c, run);
  }

  // ---- where a second probe comes from ----

  /** Whoever left closed got there by outcomes that trip, so failures alone can trip again. */
  predicate Touchy(c: Rules, s: Sys)
    requires c.minRequests > 0
  {
    !s.core.status.Closed? || OutProbes(s) != {} ==> c.trips(0, c.minRequests)
  }

  lemma TouchyStep(c: Rules, s: Sys, e: Event)
    requires Active(c) && Inv(c, s) && Enabled(s, e) && Touchy(c, s)
    ensures Touchy(c, Next(c, s, e))
  {
    match e {
      case Finish(id, success, now) =>
        FinishSets(c, s, id, success, now);
        assert s.permits[id].ForProbe? ==> id in OutProbes(s);
        if s.permits[id].ForCall? {
          TouchyReport(c, s.core, s.since, success, now);
        }
      case Call(now) => CallSets(c, s, now);
      case Peek(now) =>
        assert OutProbes(Next(c, s, e)) == OutProbes(s);
    }
  }

  lemma TouchyReport(c: Rules, b: Core, since: seq<bool>, success: bool, now: int)
    requires Active(c) && CountersAre(c, b, since)
    ensures !Reported(c, b, success, now).status.Closed? ==> !b.status.Closed? || c.trips(0, c.minRequests)
  {
  }

  lemma {:induction false} TouchyRuns(c: Rules, run: seq<Event>)
    requires Active(c) && Legal(c, run)
    ensures Touchy(c, Final(c, run))
  {
    if run != [] {
      TouchyRuns(c, run[..|run| - 1]);
      RunsKeep(c, run[..|run| - 1]);
      TouchyStep(c, Final(c, run[..|run| - 1]), run[|run| - 1]);
    } else {
      assert OutProbes(START) == {};
    }
  }

  /** Events from `s` on in which the breaker never closes again: no probe succeeds, as
      `OnlyProbesRescue` says. */
  ghost predicate Unrescued(c: Rules, s: Sys, more: seq<Event>)
    decreases |more|
  {
    more == [] || (Enabled(s, more[0]) && !Next(c, s, more[0]).core.status.Closed?
                   && Unrescued(c, Next(c, s, more[0]), more[1..]))
  }

  function Later(c: Rules, s: Sys, more: seq<Event>): Sys
    requires Unrescued(c, s, more)
    decreases |more|
  {
    if more == [] then s else Later(c, Next(c, s, more[0]), more[1..])
  }

  /** Nothing but a probe's success closes a breaker. */
  lemma OnlyProbesRescue(c: Rules, s: Sys, e: Event)
    requires Active(c) && Inv(c, s) && Enabled(s, e) && !s.core.status.Closed?
    ensures Next(c, s, e).core.status.Closed? <==> ProbeSucceeds(s, e)
  {
  }

  /** Away from closed no call is let in, so once too few are out to trip, too few stay out. */
  lemma {:induction false} CalmOnward(c: Rules, s: Sys, more: seq<Event>)
    requires Active(c) && Inv(c, s) && CalmInv(c, s) && !s.core.status.Closed? && Unrescued(c, s, more)
    ensures CalmInv(c, Later(c, s, more))
    decreases |more|
  {
    if more != [] {
      var e := more[0];
      if e.Finish? {
        FinishSets(c, s, e.id, e.success, e.now);
        if s.permits[e.id].ForCall? {
          assert e.id in OutCalls(s) && |OutCalls(s)| >= 1;
          CalmWhileOpen(c, s.core, s.since, e.success, e.now);
        }
      }
      StepKeeps(c, s, e);
      CalmStep(c, s, e);
      CalmOnward(c, Next(c, s, e), more[1..]);
    }
  }

  /** A half-open breaker that has heard `k` failures and nothing else. */
  predicate Failing(c: Rules, s: Sys, k: nat) {
    && s.core.status.HalfOpen? && s.core.successes == 0 && s.core.failures == k
    && |s.since| == k && Count(s.since, true) == 0 && Count(s.since, false) == k
  }

  lemma FailureHeard(c: Rules, s: Sys, id: nat, k: nat)
    requires Active(c) && c.trips(0, c.minRequests)
    requires id in s.permits && s.permits[id].ForCall? && k < c.minRequests && Failing(c, s, k)
    ensures var u := Next(c, s, Finish(id, false, s.now));
      && u.now == s.now && u.permits == s.permits - {id} && u.issued == s.issued
      && (if k + 1 == c.minRequests then u.core.status.Open? && u.core.openedAt == s.now else Failing(c, u, k + 1))
  {
    CountPush(s.since, false, true);
    CountPush(s.since, false, false);
  }

  /** Late failures, as many as the minimum still wants, reopen the breaker under its probe. */
  lemma {:induction false} FailuresReopen(c: Rules, s: Sys, k: nat, probe: nat) returns (more: seq<Event>)
    requires Active(c) && c.trips(0, c.minRequests) && k < c.minRequests && Failing(c, s, k)
    requires |OutCalls(s)| >= c.minRequests - k && probe in OutProbes(s)
    ensures Unrescued(c, s, more)
    ensures var u := Later(c, s, more);
      u.core.status.Open? && u.core.openedAt == u.now && probe in OutProbes(u) && u.issued == s.issued
    decreases c.minRequests - k
  {
    var id :| id in OutCalls(s);
    var e := Finish(id, false, s.now);
    FailureHeard(c, s, id, k);
    FinishSets(c, s, id, false, s.now);
    var u := Next(c, s, e);
    assert probe in OutProbes(u);
    if k + 1 == c.minRequests {
      more := [e];
      assert Unrescued(c, u, more[1..]) && Later(c, u, more[1..]) == u;
    } else {
      var rest := FailuresReopen(c, u, k + 1, probe);
      more := [e] + rest;
      assert more[1..] == rest;
    }
  }

  lemma ProbeLetIn(c: Rules, s: Sys)
    requires Active(c) && s.core.status.Open? && s.core.openedAt == s.now
    ensures Enabled(s, Call(s.now + c.openFor))
    ensures var u := Next(c, s, Call(s.now + c.openFor));
      && u.core.status.HalfOpen? && u.core.successes == s.core.successes && u.core.failures == s.core.failures
      && u.since == s.since && u.permits == s.permits[s.issued := ForProbe] && u.issued == s.issued + 1
  {
  }

  lemma {:induction false} LaterJoins(c: Rules, s: Sys, a: seq<Event>, b: seq<Event>)
    requires Unrescued(c, s, a) && Unrescued(c, Later(c, s, a), b)
    ensures Unrescued(c, s, a + b) && Later(c, s, a + b) == Later(c, Later(c, s, a), b)
    decreases |a|
  {
    if a == [] {
      assert a + b == b;
    } else {
      assert (a + b)[1..] == a[1..] + b;
      LaterJoins(c, Next(c, s, a[0]), a[1..], b);
    }
  }

  lemma OneEvent(c: Rules, s: Sys, e: Event)
    requires Enabled(s, e) && !Next(c, s, e).core.status.Closed?
    ensures Unrescued(c, s, [e]) && Later(c, s, [e]) == Next(c, s, e)
  {
    assert [e][1..] == [];
  }

  /** After a trip that leaves the minimum of calls out: one probe, those calls fail late, and
      a second probe joins the first. */
  lemma SecondProbe(c: Rules, s: Sys) returns (more: seq<Event>)
    requires Active(c) && Inv(c, s) && c.trips(0, c.minRequests)
    requires s.core.status.Open? && s.core.openedAt == s.now && s.since == []
    requires |OutCalls(s)| >= c.minRequests
    ensures Unrescued(c, s, more) && |OutProbes(Later(c, s, more))| >= 2
  {
    var first := Call(s.now + c.openFor);
    ProbeLetIn(c, s);
    OneEvent(c, s, first);
    var u := Next(c, s, first);
    assert s.issued in OutProbes(u);
    assert OutCalls(u) == OutCalls(s);
    var failures := FailuresReopen(c, u, 0, s.issued);
    LaterJoins(c, s, [first], failures);
    var v := Later(c, u, failures);
    var second := Call(v.now + c.openFor);
    ProbeLetIn(c, v);
    OneEvent(c, v, second);
    more := [first] + failures + [second];
    LaterJoins(c, s, [first] + failures, [second]);
    var w := Next(c, v, second);
    assert {s.issued, v.issued} <= OutProbes(w);
    AtLeastTwo(OutProbes(w), s.issued, v.issued);
  }

  lemma AtLeastTwo(all: set<nat>, a: nat, b: nat)
    requires a in all && b in all && a != b
    ensures |all| >= 2
  {
    assert all == {a, b} + (all - {a, b});
  }

  /** However things go on from `s` until some probe succeeds, at most one probe is out. */
  ghost predicate AtMostOneProbe(c: Rules, s: Sys) {
    forall more {:trigger Unrescued(c, s, more)} | Unrescued(c, s, more) :: |OutProbes(Later(c, s, more))| <= 1
  }

  /** The guard, exactly. In a calm run that ends with a trip, fewer calls are out than the
      minimum if and only if, however things go on until some probe succeeds, at most one
      probe is out. */
  lemma OneProbeExactly(c: Rules, run: seq<Event>, e: Event)
    requires Active(c) && Legal(c, run) && Calm(c, run)
    requires Enabled(Final(c, run), e) && TripsAt(c, Final(c, run), e)
    ensures |OutCalls(Next(c, Final(c, run), e))| < c.minRequests <==> AtMostOneProbe(c, Next(c, Final(c, run), e))
  {
    var before, s := Final(c, run), Next(c, Final(c, run), e);
    RunsKeep(c, run);
    StepKeeps(c, before, e);
    TripOpens(c, before, e);
    if |OutCalls(s)| < c.minRequests {
      CalmRunsKeep(c, run);
      CalmStep(c, before, e);
      forall more | Unrescued(c, s, more) ensures |OutProbes(Later(c, s, more))| <= 1 {
        CalmOnward(c, s, more);
      }
    } else {
      TouchyRuns(c, run);
      TouchyStep(c, before, e);
      var more := SecondProbe(c, s);
      assert Unrescued(c, s, more) && !(|OutProbes(Later(c, s, more))| <= 1);
    }
  }

  /** Calm or not before, a trip with the minimum of calls out can lead to two probes out. */
  lemma TwoProbesFollow(c: Rules, run: seq<Event>, e: Event) returns (more: seq<Event>)
    requires Active(c) && Legal(c, run) && Enabled(Final(c, run), e) && TripsAt(c, Final(c, run), e)
    requires |OutCalls(Next(c, Final(c, run), e))| >= c.minRequests
    ensures Unrescued(c, Next(c, Final(c, run), e), more)
    ensures |OutProbes(Later(c, Next(c, Final(c, run), e), more))| >= 2
  {
    RunsKeep(c, run);
    StepKeeps(c, Final(c, run), e);
    TripOpens(c, Final(c, run), e);
    TouchyRuns(c, run);
    TouchyStep(c, Final(c, run), e);
    more := SecondProbe(c, Next(c, Final(c, run), e));
  }

  // ---- a run with two probes out ----

  const TOUCHY := Settings(0.5, 1, 10)

  /** One late failure reopens the breaker under its own probe. */
  const LATE: seq<Event> :=
    [Call(0), Call(0), Finish(0, false, 1), Call(11), Finish(1, false, 12), Call(22)]

  lemma Then(c: Rules, run: seq<Event>, e: Event) returns (longer: seq<Event>)
    requires Legal(c, run) && Enabled(Final(c, run), e)
    ensures longer == run + [e] && Legal(c, longer) && Final(c, longer) == Next(c, Final(c, run), e)
  {
    longer := run + [e];
    assert longer[..|run|] == run;
  }

  lemma TouchyTripsOnOne()
    ensures RulesOf(TOUCHY).trips(0, 1)
  {
    WholeShare(1);
  }

  lemma TouchyTrips(s: Sys, id: nat, now: int)
    requires Enabled(s, Finish(id, false, now)) && s.permits[id].ForCall?
    requires s.since == [] && s.core.successes == 0 && s.core.failures == 0
    ensures Next(RulesOf(TOUCHY), s, Finish(id, false, now))
         == s.(core := Tripped(s.core, now), permits := s.permits - {id}, now := now)
  {
    CountPush([], false, true);
    CountPush([], false, false);
    assert [] + [false] == [false];
    TouchyTripsOnOne();
  }

  lemma TouchyAdmits(s: Sys, now: int)
    requires Enabled(s, Call(now)) && s.core.status.Closed?
    ensures Next(RulesOf(TOUCHY), s, Call(now))
         == s.(now := now, permits := s.permits[s.issued := ForCall], issued := s.issued + 1)
  {
  }

  lemma TwoCallsOut() returns (run: seq<Event>)
    ensures run == [Call(0), Call(0)] && Legal(RulesOf(TOUCHY), run)
    ensures Final(RulesOf(TOUCHY), run) == START.(permits := map[0 := ForCall, 1 := ForCall], issued := 2)
  {
    TouchyAdmits(START, 0);
    run := Then(RulesOf(TOUCHY), [], Call(0));
    TouchyAdmits(Final(RulesOf(TOUCHY), run), 0);
    run := Then(RulesOf(TOUCHY), run, Call(0));
  }

  lemma LateTrip() returns (run: seq<Event>)
    ensures run == LATE[..3] && Legal(RulesOf(TOUCHY), run)
    ensures Final(RulesOf(TOUCHY), run) == Sys(Core(Open, 0, 0, 1, false), 1, map[1 := ForCall], 2, [], 0, [])
  {
    run := TwoCallsOut();
    var s := Final(RulesOf(TOUCHY), run);
    TouchyTrips(s, 0, 1);
    run := Then(RulesOf(TOUCHY), run, Finish(0, false, 1));
    assert s.permits - {0} == map[1 := ForCall];
  }

  lemma TouchyProbes(s: Sys, now: int)
    requires Enabled(s, Call(now)) && s.core.status.Open? && now - s.core.openedAt >= 10
    ensures Next(RulesOf(TOUCHY), s, Call(now))
         == s.(core := s.core.(status := HalfOpen, probing := true), now := now, episode := s.episode + 1,
               permits := s.permits[s.issued := ForProbe], issued := s.issued + 1, probed := s.probed + [s.episode + 1])
  {
  }

  lemma LateProbe() returns (run: seq<Event>)
    ensures run == LATE[..4] && Legal(RulesOf(TOUCHY), run)
    ensures Final(RulesOf(TOUCHY), run)
         == Sys(Core(HalfOpen, 0, 0, 1, true), 11, map[1 := ForCall, 2 := ForProbe], 3, [], 1, [1])
  {
    run := LateTrip();
    TouchyProbes(Final(RulesOf(TOUCHY), run), 11);
    run := Then(RulesOf(TOUCHY), run, Call(11));
  }

  lemma LateReopens() returns (run: seq<Event>)
    ensures run == LATE[..5] && Legal(RulesOf(TOUCHY), run)
    ensures Final(RulesOf(TOUCHY), run) == Sys(Core(Open, 0, 0, 12, true), 12, map[2 := ForProbe], 3, [], 1, [1])
  {
    run := LateProbe();
    var s := Final(RulesOf(TOUCHY), run);
    TouchyTrips(s, 1, 12);
    run := Then(RulesOf(TOUCHY), run, Finish(1, false, 12));
    assert s.permits - {1} == map[2 := ForProbe];
  }

  lemma TwoProbesOut()
    ensures Proper(TOUCHY) && Legal(RulesOf(TOUCHY), LATE)
    ensures OutProbes(Final(RulesOf(TOUCHY), LATE)) == {2, 3}
  {
    var run := LateReopens();
    TouchyProbes(Final(RulesOf(TOUCHY), run), 22);
    run := Then(RulesOf(TOUCHY), run, Call(22));
    assert Final(RulesOf(TOUCHY), run).permits == map[2 := ForProbe, 3 := ForProbe];
    assert run == LATE;
  }
}
