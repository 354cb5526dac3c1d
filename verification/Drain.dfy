/** Draining a runtime: `Acquire`, `Release`, `Retire` and `close`, one atomic operation to
    a step, by any number of request and retiring threads in any interleaving.

    Time is the number of steps taken. It is kept only to say in which order things
    happened; no step depends on it. */
module Drain {

  type Thread = nat

  /** Why a thread runs `close`. */
  datatype Cause =
    | Check              // Retire's own look at the count
    | Tick               // the poller's
    | Grace              // the grace period ran out
    | Last(at: nat)      // a Release whose decrement to zero came at `at`

  /** Where a thread stands between two of its atomic operations. */
  datatype Stage =
    | Counted(inc: nat)             // Acquire: incremented, retired not read yet
    | Holding(inc: nat, read: nat)  // Acquire returned true
    | Backing(inc: nat)             // Acquire read retired, must release again
    | Deciding(at: nat)             // Release: decremented to zero, retired not read yet
    | Stored                        // Retire: retired set, count not read yet
    | Polling                       // Retire: the goroutine is waiting
    | Closing(cause: Cause)         // about to run close

  datatype State = State(
    now: nat,
    refs: int,
    retiredAt: nat,     // when retired was first set; meaningful once `retired`
    retired: bool,
    checked: bool,      // some Retire is past its own look at the count
    closes: nat,        // times the close body ran
    closedBy: Cause,    // meaningful once `closes > 0`
    threads: map<Thread, Stage>)

  datatype Action =
    | Increment(t: Thread)
    | ReadRetired(t: Thread)
    | Decrement(t: Thread)
    | Decide(t: Thread)
    | StoreRetired(t: Thread)
    | LookAtCount(t: Thread)
    | PollCount(t: Thread)
    | Expire(t: Thread)
    | Close(t: Thread)

  const INITIAL := State(0, 0, 0, false, false, 0, Check, map[])

  // ---- the steps ----

  predicate Enabled(s: State, a: Action) {
    match a
    case Increment(t) => t !in s.threads
    case ReadRetired(t) => t in s.threads && s.threads[t].Counted?
    case Decrement(t) => t in s.threads && (s.threads[t].Holding? || s.threads[t].Backing?)
    case Decide(t) => t in s.threads && s.threads[t].Deciding?
    case StoreRetired(t) => t !in s.threads
    case LookAtCount(t) => t in s.threads && s.threads[t].Stored?
    case PollCount(t) => t in s.threads && s.threads[t].Polling?
    case Expire(t) => t in s.threads && s.threads[t].Polling?
    case Close(t) => t in s.threads && s.threads[t].Closing?
  }

  function Put(s: State, t: Thread, stage: Stage): State {
    s.(threads := s.threads[t := stage], now := s.now + 1)
  }

  function Leave(s: State, t: Thread): State {
    s.(threads := s.threads - {t}, now := s.now + 1)
  }

  function Next(s: State, a: Action): State
    requires Enabled(s, a)
  {
    match a
    case Increment(t) => Put(s.(refs := s.refs + 1), t, Counted(s.now))
    case ReadRetired(t) =>
      Put(s, t, if s.retired then Backing(s.threads[t].inc) else Holding(s.threads[t].inc, s.now))
    case Decrement(t) =>
      if s.refs - 1 == 0 then Put(s.(refs := 0), t, Deciding(s.now)) else Leave(s.(refs := s.refs - 1), t)
    case Decide(t) =>
      if s.retired then Put(s, t, Closing(Last(s.threads[t].at))) else Leave(s, t)
    case StoreRetired(t) =>
      Put(s.(retired := true, retiredAt := if s.retired then s.retiredAt else s.now), t, Stored)
    case LookAtCount(t) =>
      Put(s.(checked := true), t, if s.refs == 0 then Closing(Check) else Polling)
    case PollCount(t) => if s.refs <= 0 then Put(s, t, Closing(Tick)) else Put(s, t, Polling)
    case Expire(t) => Put(s, t, Closing(Grace))
    case Close(t) =>
      // the body runs once; a later caller finds it done
      if s.closes == 0 then Leave(s.(closes := 1, closedBy := s.threads[t].cause), t) else Leave(s, t)
  }

  // ---- runs ----

  predicate Legal(run: seq<Action>)
    decreases |run|, 0
  {
    run == [] || (Legal(run[..|run| - 1]) && Enabled(Final(run[..|run| - 1]), run[|run| - 1]))
  }

  function Final(run: seq<Action>): State
    requires Legal(run)
    decreases |run|, 1
  {
    if run == [] then INITIAL else Next(Final(run[..|run| - 1]), run[|run| - 1])
  }

  // ---- who is counted, who holds ----

  predicate IsCounted(stage: Stage) {
    stage.Counted? || stage.Holding? || stage.Backing?
  }

  function CountedThreads(s: State): set<Thread> {
    set t | t in s.threads && IsCounted(s.threads[t])
  }

  function Holders(s: State): set<Thread> {
    set t | t in s.threads && s.threads[t].Holding?
  }

  /** A thread inside Release after its decrement, or inside close. */
  predicate MidRelease(s: State, t: Thread) {
    t in s.threads && (s.threads[t].Deciding? || s.threads[t].Closing?)
  }

  // ---- the invariant ----

  predicate TimesRight(s: State, stage: Stage) {
    match stage
    case Counted(inc) => inc < s.now
    case Holding(inc, read) => inc < read < s.now && (s.retired ==> read < s.retiredAt)
    case Backing(inc) => inc < s.now && s.retired
    case Deciding(at) => at < s.now
    case Stored => s.retired
    case Polling => s.retired
    case Closing(cause) => s.retired && (cause.Last? ==> cause.at < s.now)
  }

  /** The decrement to zero at `at` left nobody counted: whoever is now came later. */
  predicate EmptyAt(s: State, at: nat) {
    && (s.retired ==> s.retiredAt != at)
    && forall t | t in CountedThreads(s) :: at < s.threads[t].inc
  }

  /** What a cause promises about holders, from the moment it is decided. */
  predicate Justified(s: State, cause: Cause) {
    match cause
    case Check => Holders(s) == {}
    case Tick => Holders(s) == {}
    case Grace => true
    case Last(at) => EmptyAt(s, at)
  }

  predicate StageRight(s: State, t: Thread)
    requires t in s.threads
  {
    && TimesRight(s, s.threads[t])
    && (s.threads[t].Deciding? ==> EmptyAt(s, s.threads[t].at))
    && (s.threads[t].Closing? ==> Justified(s, s.threads[t].cause))
  }

  ghost predicate Inv(s: State) {
    && s.refs == |CountedThreads(s)|
    && (s.retired ==> s.retiredAt < s.now)
    && s.closes <= 1
    && (s.closes > 0 ==> s.retired && Justified(s, s.closedBy) && (s.closedBy.Last? ==> s.closedBy.at < s.now))
    && (forall t {:trigger StageRight(s, t)} | t in s.threads :: StageRight(s, t))
    && (s.checked ==> s.retired)
    && (s.checked && s.refs == 0 && s.closes == 0 ==> exists t :: MidRelease(s, t))
  }

  // ---- every step keeps it ----

  /** `u` follows `s` by a step of thread `t`: nobody else moves, retired is only ever set,
      whoever joins the count joins now, and nobody acquires a retired runtime. */
  ghost predicate Follows(s: State, t: Thread, u: State) {
    && u.now == s.now + 1
    && (forall x | x != t :: x in u.threads <==> x in s.threads)
    && (forall x | x != t && x in s.threads :: u.threads[x] == s.threads[x])
    && (s.retired ==> u.retired && u.retiredAt == s.retiredAt)
    && (!s.retired && u.retired ==> u.retiredAt == s.now)
    && (t in CountedThreads(u) ==>
          u.threads[t].inc == s.now || (t in CountedThreads(s) && u.threads[t].inc == s.threads[t].inc))
    && (s.retired && t in Holders(u) ==> t in Holders(s))
  }

  lemma NextFollows(s: State, a: Action)
    requires Inv(s) && Enabled(s, a)
    ensures Follows(s, a.t, Next(s, a))
  {
  }

  lemma EmptyStays(s: State, t: Thread, u: State, at: nat)
    requires Follows(s, t, u) && EmptyAt(s, at) && at < s.now
    ensures EmptyAt(u, at)
  {
    forall x | x in CountedThreads(u) ensures at < u.threads[x].inc {
      assert x != t ==> x in CountedThreads(s);
    }
  }

  lemma HoldersShrink(s: State, t: Thread, u: State)
    requires Follows(s, t, u) && s.retired
    ensures Holders(u) <= Holders(s)
  {
  }

  lemma JustifiedStays(s: State, t: Thread, u: State, cause: Cause)
    requires Follows(s, t, u) && s.retired && Justified(s, cause) && (cause.Last? ==> cause.at < s.now)
    ensures Justified(u, cause)
  {
    HoldersShrink(s, t, u);
    if cause.Last? {
      EmptyStays(s, t, u, cause.at);
    }
  }

  lemma OthersStayRight(s: State, t: Thread, u: State, x: Thread)
    requires Follows(s, t, u) && x != t && x in s.threads && StageRight(s, x)
    requires s.retired ==> s.retiredAt < s.now
    ensures x in u.threads && StageRight(u, x)
  {
    match s.threads[x] {
      case Deciding(at) => EmptyStays(s, t, u, at);
      case Closing(cause) => JustifiedStays(s, t, u, cause);
      case _ =>
    }
  }

  lemma CountedAfter(s: State, t: Thread, u: State)
    requires Follows(s, t, u)
    ensures CountedThreads(u) - {t} == CountedThreads(s) - {t}
    ensures |CountedThreads(u)| - (if t in CountedThreads(u) then 1 else 0)
         == |CountedThreads(s)| - (if t in CountedThreads(s) then 1 else 0)
  {
    OthersCountedAlike(s, t, u);
    WithoutOne(CountedThreads(u), t);
    WithoutOne(CountedThreads(s), t);
  }

  lemma OthersCountedAlike(s: State, t: Thread, u: State)
    requires Follows(s, t, u)
    ensures CountedThreads(u) - {t} == CountedThreads(s) - {t}
  {
    forall x | x != t ensures x in CountedThreads(u) <==> x in CountedThreads(s) {
    }
  }

  lemma WithoutOne(all: set<Thread>, t: Thread)
    ensures |all - {t}| == |all| - if t in all then 1 else 0
  {
    assert t !in all ==> all - {t} == all;
  }

  /** Count zero means nobody is counted. */
  lemma NobodyCounted(u: State)
    requires u.refs == |CountedThreads(u)| == 0
    ensures CountedThreads(u) == {} && Holders(u) == {}
  {
    assert forall x | x in Holders(u) :: x in CountedThreads(u);
  }

  lemma OwnStageRight(s: State, a: Action)
    requires Inv(s) && Enabled(s, a) && a.t in Next(s, a).threads
    requires Next(s, a).refs == |CountedThreads(Next(s, a))|
    ensures StageRight(Next(s, a), a.t)
  {
    var u := Next(s, a);
    assert a.t in s.threads ==> StageRight(s, a.t);
    if a.Decrement? {
      NobodyCounted(u);
    } else if a.Decide? {
      EmptyStays(s, a.t, u, s.threads[a.t].at);
    } else if (a.LookAtCount? || a.PollCount?) && u.threads[a.t].Closing? {
      NobodyCounted(u);
    }
  }

  lemma SomeoneFinishes(s: State, a: Action)
    requires Inv(s) && Enabled(s, a)
    requires Next(s, a).refs == |CountedThreads(Next(s, a))|
    ensures var u := Next(s, a); u.checked && u.refs == 0 && u.closes == 0 ==> exists x :: MidRelease(u, x)
  {
    var u := Next(s, a);
    if u.checked && u.refs == 0 && u.closes == 0 {
      if MidRelease(u, a.t) {
      } else {
        assert a.t in s.threads ==> StageRight(s, a.t);
        var x :| MidRelease(s, x);
        assert MidRelease(u, x);
      }
    }
  }

  lemma StepKeeps(s: State, a: Action)
    requires Inv(s) && Enabled(s, a)
    ensures Inv(Next(s, a))
  {
    var t, u := a.t, Next(s, a);
    NextFollows(s, a);
    CountedAfter(s, t, u);
    assert t in s.threads ==> StageRight(s, t);
    forall x | x in u.threads ensures StageRight(u, x) {
      if x == t {
        OwnStageRight(s, a);
      } else {
        OthersStayRight(s, t, u, x);
      }
    }
    if s.closes > 0 {
      assert s.closedBy.Last? ==> s.closedBy.at < s.now;
      JustifiedStays(s, t, u, s.closedBy);
    } else if u.closes > 0 {
      JustifiedStays(s, t, u, u.closedBy);
    }
    SomeoneFinishes(s, a);
  }

  lemma {:induction false} RunsKeep(run: seq<Action>)
    requires Legal(run)
    ensures Inv(Final(run))
  {
    if run != [] {
      RunsKeep(run[..|run| - 1]);
      StepKeeps(Final(run[..|run| - 1]), run[|run| - 1]);
    }
  }

  // ---- the theorems ----

  /** The count is the number of threads between their increment and their decrement. */
  lemma CountIsExact(run: seq<Action>)
    requires Legal(run)
    ensures Final(run).refs == |CountedThreads(Final(run))|
  {
    RunsKeep(run);
  }

  /** The close body runs at most once, and never before the runtime was retired. */
  lemma ClosedAtMostOnce(run: seq<Action>)
    requires Legal(run)
    ensures Final(run).closes <= 1
    ensures Final(run).closes == 1 ==> Final(run).retired
  {
    RunsKeep(run);
  }

  /** No lost close: once some Retire is past its look at the count, an uncounted runtime
      with nobody in the middle of a release is closed, poller or no poller. */
  lemma NoLostClose(run: seq<Action>)
    requires Legal(run)
    ensures var s := Final(run);
      s.checked && s.refs == 0 && (forall t :: !MidRelease(s, t)) ==> s.closes == 1
  {
    RunsKeep(run);
  }

  /** A thread that acquired after the decrement to zero at `at` and before retired was set. */
  predicate AcquiredBetween(s: State, t: Thread, at: nat) {
    && t in s.threads && s.threads[t].Holding? && s.retired
    && at < s.threads[t].inc < s.threads[t].read < s.retiredAt
  }

  /** Safety, now and from here on: a runtime closed by Retire's own look, by the poller or by
      a release that decremented after retired was set is held by nobody. Closed by an
      earlier decrement, it is held only by threads whose whole Acquire fell between that
      decrement and the store to retired. Only the grace period may close it under others. */
  lemma ClosedUnderNobody(run: seq<Action>)
    requires Legal(run) && Final(run).closes > 0
    ensures var s := Final(run);
      match s.closedBy
      case Check => Holders(s) == {}
      case Tick => Holders(s) == {}
      case Grace => true
      case Last(at) =>
        if s.retiredAt < at then Holders(s) == {} else forall t | t in Holders(s) :: AcquiredBetween(s, t, at)
  {
    RunsKeep(run);
    var s := Final(run);
    if s.closedBy.Last? {
      forall t | t in Holders(s) ensures AcquiredBetween(s, t, s.closedBy.at) {
        assert t in CountedThreads(s) && StageRight(s, t);
      }
      assert s.retiredAt < s.closedBy.at ==> forall t | t in Holders(s) :: !AcquiredBetween(s, t, s.closedBy.at);
    }
  }

  /** Once retired, no run brings a new holder. */
  lemma {:induction false} RetiredGainsNoHolder(run: seq<Action>, more: seq<Action>)
    requires Legal(run) && Legal(run + more) && Final(run).retired
    ensures Final(run + more).retired && Holders(Final(run + more)) <= Holders(Final(run))
    decreases |more|
  {
    if more == [] {
      assert run + more == run;
    } else {
      var shorter, a := more[..|more| - 1], more[|more| - 1];
      assert (run + more)[..|run + more| - 1] == run + shorter;
      RetiredGainsNoHolder(run, shorter);
      RunsKeep(run + shorter);
      NextFollows(Final(run + shorter), a);
      HoldersShrink(Final(run + shorter), a.t, Final(run + more));
    }
  }

  /** The schedule the early-release case is about: thread 0 decrements to zero, thread 1
      acquires, thread 2 retires, and only then does thread 0 read retired and close. */
  const EARLY: seq<Action> :=
    [Increment(0), ReadRetired(0), Decrement(0), Increment(1), ReadRetired(1), StoreRetired(2), Decide(0), Close(0)]

  lemma Extend(run: seq<Action>, a: Action)
    requires Legal(run) && Enabled(Final(run), a)
    ensures Legal(run + [a]) && Final(run + [a]) == Next(Final(run), a)
  {
    assert (run + [a])[..|run|] == run;
  }

  lemma ThenCloses(run: seq<Action>, a: Action, t: Thread)
    requires Legal(run) && Enabled(Final(run), a)
    requires t in Next(Final(run), a).threads && Next(Final(run), a).threads[t].Closing?
    ensures Legal(run + [a] + [Close(t)]) && Final(run + [a] + [Close(t)]).closes == 1
  {
    Extend(run, a);
    Extend(run + [a], Close(t));
    RunsKeep(run + [a] + [Close(t)]);
  }

  /** In any run a thread that retires the runtime can close it: at its own look if nobody is
      counted, at a poll that finds nobody, and when the grace period is over whoever is there. A
      poll that finds someone waits on. */
  lemma RetireCloses(run: seq<Action>, t: Thread)
    requires Legal(run) && t in Final(run).threads
    ensures Final(run).threads[t].Stored? && Final(run).refs == 0 ==>
            Legal(run + [LookAtCount(t)] + [Close(t)]) && Final(run + [LookAtCount(t)] + [Close(t)]).closes == 1
    ensures Final(run).threads[t].Polling? ==>
            Legal(run + [Expire(t)] + [Close(t)]) && Final(run + [Expire(t)] + [Close(t)]).closes == 1
    ensures Final(run).threads[t].Polling? && Final(run).refs == 0 ==>
            Legal(run + [PollCount(t)] + [Close(t)]) && Final(run + [PollCount(t)] + [Close(t)]).closes == 1
    ensures Final(run).threads[t].Polling? && Final(run).refs > 0 ==>
            Legal(run + [PollCount(t)]) && Final(run + [PollCount(t)]).threads == Final(run).threads
  {
    var s := Final(run);
    if s.threads[t].Stored? && s.refs == 0 {
      ThenCloses(run, LookAtCount(t), t);
    }
    if s.threads[t].Polling? {
      ThenCloses(run, Expire(t), t);
      Extend(run, PollCount(t));
      if s.refs == 0 {
        ThenCloses(run, PollCount(t), t);
      }
    }
  }

  lemma ClosedWhileHeld()
    ensures Legal(EARLY) && Final(EARLY).closes == 1 && Final(EARLY).closedBy == Last(2)
    ensures Holders(Final(EARLY)) == {1}
  {
    Extend([], Increment(0));
    Extend([Increment(0)], ReadRetired(0));
    var r3 := [Increment(0), ReadRetired(0), Decrement(0)];
    Extend([Increment(0), ReadRetired(0)], Decrement(0));
    assert Final(r3).refs == 0 && Final(r3).threads == map[0 := Deciding(2)];
    Extend(r3, Increment(1));
    Extend(r3 + [Increment(1)], ReadRetired(1));
    var r5 := r3 + [Increment(1)] + [ReadRetired(1)];
    assert Final(r5).threads == map[0 := Deciding(2), 1 := Holding(3, 4)];
    Extend(r5, StoreRetired(2));
    Extend(r5 + [StoreRetired(2)], Decide(0));
    var r7 := r5 + [StoreRetired(2)] + [Decide(0)];
    assert Final(r7).threads == map[0 := Closing(Last(2)), 1 := Holding(3, 4), 2 := Stored];
    Extend(r7, Close(0));
    assert r7 + [Close(0)] == EARLY;
  }
}
