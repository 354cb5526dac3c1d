/** Swapping runtimes under traffic: `Reload`, serialised by its mutex, against the load and
    acquire loop of any number of requests, one shared access to a step. A runtime is known
    by its generation, which no two builds share. */
module Swap {

  type Thread = nat
  type Generation = nat

  const ATTEMPTS := 8

  /** How far the reload holding the mutex has come; `before` is what was current when it began. */
  datatype Reloader =
    | Idle
    | Loading(before: Generation)
    | Building(before: Generation, gen: Generation)
    | Built(before: Generation, gen: Generation)
    | Ready(before: Generation, gen: Generation)
    | Swapped(gen: Generation, prior: Generation)
    | SettingsStored(gen: Generation, prior: Generation)

  /** Where a request stands; `start`, `at` and `end` count the swaps completed by then. */
  datatype Request =
    | Trying(attempt: nat, start: nat)
    | Picked(attempt: nat, start: nat, gen: Generation, at: nat)
    | Serving(gen: Generation)
    | NotReady(start: nat, end: nat)

  datatype State = State(
    current: Generation,
    settings: Generation,
    counter: nat,
    swaps: nat,
    retired: set<Generation>,
    published: seq<Generation>,
    reloader: Reloader,
    requests: map<Thread, Request>)

  datatype Action =
    | Begin
    | ConfigFails
    | TakeNumber
    | BuildFails
    | BuildDone
    | CidrsFail
    | CidrsDone
    | SwapIn
    | StoreSettings
    | RetireOld
    | Arrive(t: Thread)
    | Load(t: Thread)
    | Acquire(t: Thread)

  /** What NewServer leaves behind. */
  const INITIAL := State(1, 1, 1, 0, {}, [1], Idle, map[])

  predicate Enabled(s: State, a: Action) {
    match a
    case Begin => s.reloader.Idle?
    case ConfigFails => s.reloader.Loading?
    case TakeNumber => s.reloader.Loading?
    case BuildFails => s.reloader.Building?
    case BuildDone => s.reloader.Building?
    case CidrsFail => s.reloader.Built?
    case CidrsDone => s.reloader.Built?
    case SwapIn => s.reloader.Ready?
    case StoreSettings => s.reloader.Swapped?
    case RetireOld => s.reloader.SettingsStored?
    case Arrive(t) => t !in s.requests
    case Load(t) => t in s.requests && s.requests[t].Trying?
    case Acquire(t) => t in s.requests && s.requests[t].Picked?
  }

  function Move(s: State, t: Thread, r: Request): State {
    s.(requests := s.requests[t := r])
  }

  function Next(s: State, a: Action): State
    requires Enabled(s, a)
  {
    match a
    case Begin => s.(reloader := Loading(s.current))
    case ConfigFails => s.(reloader := Idle)
    case TakeNumber => s.(counter := s.counter + 1, reloader := Building(s.reloader.before, s.counter + 1))
    case BuildFails => s.(reloader := Idle)
    case BuildDone => s.(reloader := Built(s.reloader.before, s.reloader.gen))
    case CidrsFail => s.(retired := s.retired + {s.reloader.gen}, reloader := Idle)
    case CidrsDone => s.(reloader := Ready(s.reloader.before, s.reloader.gen))
    case SwapIn =>
      s.(current := s.reloader.gen, swaps := s.swaps + 1, published := s.published + [s.reloader.gen],
         reloader := Swapped(s.reloader.gen, s.current))
    case StoreSettings => s.(settings := s.reloader.gen, reloader := SettingsStored(s.reloader.gen, s.reloader.prior))
    case RetireOld => s.(retired := s.retired + {s.reloader.prior}, reloader := Idle)
    case Arrive(t) => Move(s, t, Trying(0, s.swaps))
    case Load(t) => Move(s, t, Picked(s.requests[t].attempt, s.requests[t].start, s.current, s.swaps))
    case Acquire(t) =>
      var r := s.requests[t];
      Move(s, t, if r.gen !in s.retired then Serving(r.gen)
                 else if r.attempt + 1 < ATTEMPTS then Trying(r.attempt + 1, r.start)
                 else NotReady(r.start, s.swaps))
  }

  predicate Legal(run: seq<Action>)
    decreases |run|, 0
  {
    run == [] || (Legal(run[..|run| - 1]) && Enabled(Final(run[..|run| - 1]), run[|run| - 1]))
  }

  function Final(run: seq<Action>): State
    requires Legal(run)
    decreases |run|, 1
  {
    if run == [] then INITIAL else Next(Final(run[..|run| - 1]), run[|run| - 1])
  }

  // ---- the invariant ----

  predicate Increasing(gens: seq<Generation>) {
    forall i, j | 0 <= i < j < |gens| :: gens[i] < gens[j]
  }

  predicate ReloaderRight(s: State) {
    match s.reloader
    case Idle => s.settings == s.current
    case Loading(before) => before == s.current == s.settings
    case Building(before, gen) => before == s.current == s.settings && gen == s.counter > s.current
    case Built(before, gen) => before == s.current == s.settings && gen == s.counter > s.current
    case Ready(before, gen) => before == s.current == s.settings && gen == s.counter > s.current
    case Swapped(gen, prior) => gen == s.current == s.counter && prior == s.settings < gen
    case SettingsStored(gen, prior) => gen == s.current == s.settings == s.counter && prior < gen
  }

  /** A retired runtime was replaced or never served; none is being brought up. */
  predicate RetiredRight(s: State) {
    && s.current !in s.retired
    && (forall g | g in s.retired :: g <= s.counter)
    && (s.reloader.Building? || s.reloader.Built? || s.reloader.Ready? ==> s.counter !in s.retired)
  }

  predicate RequestRight(s: State, r: Request) {
    match r
    case Trying(i, start) => i < ATTEMPTS && start + i <= s.swaps
    case Picked(i, start, gen, at) =>
      i < ATTEMPTS && start + i <= at <= s.swaps && gen in s.published && (gen == s.current || at < s.swaps)
    case Serving(gen) => gen in s.published
    case NotReady(start, end) => start + ATTEMPTS <= end <= s.swaps
  }

  predicate PublishedRight(s: State) {
    && Increasing(s.published) && s.published != [] && s.published[|s.published| - 1] == s.current <= s.counter
    && |s.published| == s.swaps + 1
  }

  predicate Inv(s: State) {
    && PublishedRight(s) && ReloaderRight(s) && RetiredRight(s)
    && forall t | t in s.requests :: RequestRight(s, s.requests[t])
  }

  lemma PublishedKeeps(s: State, a: Action)
    requires PublishedRight(s) && ReloaderRight(s) && Enabled(s, a)
    ensures PublishedRight(Next(s, a))
  {
    if a.SwapIn? {
      var gens := s.published + [s.reloader.gen];
      forall i, j | 0 <= i < j < |gens| ensures gens[i] < gens[j] {
        if j == |s.published| {
          assert i < |s.published| - 1 ==> s.published[i] < s.published[|s.published| - 1];
        }
      }
    }
  }

  lemma ReloaderKeeps(s: State, a: Action)
    requires s.current <= s.counter && ReloaderRight(s) && RetiredRight(s) && Enabled(s, a)
    ensures ReloaderRight(Next(s, a)) && RetiredRight(Next(s, a))
  {
  }

  lemma RequestKeeps(s: State, a: Action, t: Thread)
    requires PublishedRight(s) && ReloaderRight(s) && RetiredRight(s) && Enabled(s, a) && t in Next(s, a).requests
    requires t in s.requests ==> RequestRight(s, s.requests[t])
    ensures RequestRight(Next(s, a), Next(s, a).requests[t])
  {
    assert s.current in s.published;
    if a.SwapIn? {
      assert forall g | g in s.published :: g in Next(s, a).published;
    }
  }

  lemma StepKeeps(s: State, a: Action)
    requires Inv(s) && Enabled(s, a)
    ensures Inv(Next(s, a))
  {
    PublishedKeeps(s, a);
    ReloaderKeeps(s, a);
    forall t | t in Next(s, a).requests ensures RequestRight(Next(s, a), Next(s, a).requests[t]) {
      RequestKeeps(s, a, t);
    }
  }

  lemma {:induction false} RunsKeep(run: seq<Action>)
    requires Legal(run)
    ensures Inv(Final(run))
  {
    if run != [] {
      RunsKeep(run[..|run| - 1]);
      StepKeeps(Final(run[..|run| - 1]), run[|run| - 1]);
    }
  }

  // ---- the theorems ----

  /** A request is told "not ready" only if at least eight swaps completed during its loop. */
  lemma NotReadyTakesEightSwaps(run: seq<Action>, t: Thread)
    requires Legal(run) && t in Final(run).requests && Final(run).requests[t].NotReady?
    ensures Final(run).requests[t].end - Final(run).requests[t].start >= 8
  {
    RunsKeep(run);
    assert RequestRight(Final(run), Final(run).requests[t]);
  }

  /** Published generations strictly increase, however many builds failed in between. */
  lemma GenerationsIncrease(run: seq<Action>, i: nat, j: nat)
    requires Legal(run) && i < j < |Final(run).published|
    ensures Final(run).published[i] < Final(run).published[j]
  {
    RunsKeep(run);
  }

  /** A reload that fails, at whatever stage, leaves what was current when it began, with its
      own settings, whatever the requests did meanwhile. */
  lemma FailedReloadKeepsServing(run: seq<Action>, failure: Action)
    requires failure in {ConfigFails, BuildFails, CidrsFail} && Legal(run + [failure])
    ensures Legal(run) && Enabled(Final(run), failure)
    ensures var before, after := Final(run), Final(run + [failure]);
      after.current == after.settings == before.reloader.before && after.published == before.published
      && after.current !in after.retired
  {
    assert (run + [failure])[..|run|] == run;
    RunsKeep(run);
    RunsKeep(run + [failure]);
  }

  /** What is current has not been retired, so a first attempt that is not overtaken serves. */
  lemma CurrentIsServable(run: seq<Action>)
    requires Legal(run)
    ensures Final(run).current !in Final(run).retired
  {
    RunsKeep(run);
  }

  // ---- eight is exact ----

  lemma Then(run: seq<Action>, a: Action) returns (longer: seq<Action>)
    requires Legal(run) && Enabled(Final(run), a)
    ensures Legal(longer) && Final(longer) == Next(Final(run), a)
  {
    longer := run + [a];
    assert longer[..|run|] == run;
  }

  /** A reload up to the point where it swaps: nobody notices. */
  lemma BuildUp(run: seq<Action>) returns (longer: seq<Action>)
    requires Legal(run) && Final(run).reloader.Idle?
    ensures Legal(longer)
    ensures var s := Final(run);
      Final(longer) == s.(counter := s.counter + 1, reloader := Ready(s.current, s.counter + 1))
  {
    longer := Then(run, Begin);
    longer := Then(longer, TakeNumber);
    longer := Then(longer, BuildDone);
    longer := Then(longer, CidrsDone);
  }

  /** The rest of it: what was current is retired. */
  lemma SwitchOver(run: seq<Action>) returns (longer: seq<Action>)
    requires Legal(run) && Final(run).reloader.Ready?
    ensures Legal(longer) && Final(longer).reloader.Idle?
    ensures var s, u := Final(run), Final(longer);
      u.swaps == s.swaps + 1 && u.requests == s.requests && s.current in u.retired
  {
    longer := Then(run, SwapIn);
    longer := Then(longer, StoreSettings);
    longer := Then(longer, RetireOld);
  }

  /** One whole reload between a load and its acquire costs the request one attempt. */
  lemma Overtaken(run: seq<Action>, t: Thread) returns (longer: seq<Action>)
    requires Legal(run) && Final(run).reloader.Idle?
    requires t in Final(run).requests && Final(run).requests[t].Trying?
    ensures Legal(longer) && Final(longer).reloader.Idle? && t in Final(longer).requests
    ensures Final(longer).swaps == Final(run).swaps + 1
    ensures var r := Final(run).requests[t];
      Final(longer).requests[t] == if r.attempt + 1 < ATTEMPTS then Trying(r.attempt + 1, r.start)
                                   else NotReady(r.start, Final(longer).swaps)
  {
    longer := Then(run, Load(t));
    longer := BuildUp(longer);
    longer := SwitchOver(longer);
    longer := Then(longer, Acquire(t));
  }

  /** Eight overtakings in a row do turn a request away. */
  lemma TurnedAwayAfterEight(t: Thread) returns (run: seq<Action>)
    ensures Legal(run) && t in Final(run).requests && Final(run).requests[t] == NotReady(0, 8)
  {
    run := Then([], Arrive(t));
    for i := 0 to 8
      invariant Legal(run) && Final(run).reloader.Idle? && Final(run).swaps == i
      invariant t in Final(run).requests
      invariant Final(run).requests[t] == if i < 8 then Trying(i, 0) else NotReady(0, 8)
    {
      run := Overtaken(run, t);
    }
  }

  // ---- no runtime is left behind ----

  /** The runtimes that were ever built: the first one, and one for each build that succeeded. */
  function BuiltIn(run: seq<Action>): set<Generation>
    requires Legal(run)
    decreases |run|, 2
  {
    if run == [] then {INITIAL.current}
    else
      var s := Final(run[..|run| - 1]);
      BuiltIn(run[..|run| - 1]) + if run[|run| - 1].BuildDone? then {s.reloader.gen} else {}
  }

  /** Still in the hands of the reload under way. */
  predicate InHand(s: State, g: Generation) {
    match s.reloader
    case Built(_, gen) => g == gen
    case Ready(_, gen) => g == gen
    case Swapped(_, prior) => g == prior
    case SettingsStored(_, prior) => g == prior
    case _ => false
  }

  /** A runtime that was built serves, is in the hands of the reload under way, or was retired:
      between reloads all but the current one are retired, those of failed reloads included. */
  lemma {:induction false} NoneLeftBehind(run: seq<Action>, g: Generation)
    requires Legal(run) && g in BuiltIn(run)
    ensures var s := Final(run); g == s.current || InHand(s, g) || g in s.retired
    ensures Final(run).reloader.Idle? && g != Final(run).current ==> g in Final(run).retired
  {
    if run != [] {
      var s, a := Final(run[..|run| - 1]), run[|run| - 1];
      if g in BuiltIn(run[..|run| - 1]) {
        NoneLeftBehind(run[..|run| - 1], g);
      }
    }
  }
}
