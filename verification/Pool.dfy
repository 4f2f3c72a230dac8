/**
 The session pool as interleaved steps: any number of concurrent checkouts, failures, cancellations,
 returns and warm-ups, each step as long as one lock or one permit operation.
 */
module Pool {
  import opened Bytes

  type SessionId = nat

  /** Where a call of `session` or `warm_up_to` stands. */
  datatype Task =
    | Popping
    | Checking(session: SessionId)
    | Opening
    | Holding(session: SessionId)
    | Returned
    | WarmLooking(target: nat, mine: seq<SessionId>)
    | WarmWaiting(target: nat, mine: seq<SessionId>)
    | WarmOpening(target: nat, mine: seq<SessionId>)
    | WarmDone(mine: seq<SessionId>)
    | WarmReturned(held: nat)
    | Gone

  datatype State = State(max: nat, permits: nat, idle: seq<SessionId>, tasks: seq<Task>, next: SessionId)

  function Start(max: nat): State {
    State(max, max, [], [], 0)
  }

  /** Steps of the tasks; what only the clock, the server or the caller decides is left to the step. */
  datatype Event =
    | Acquire
    | PopNothing(i: nat)
    | PopStale(i: nat)
    | PopUsed(i: nat, check: bool)
    | CheckPassed(i: nat)
    | CheckFailed(i: nat)
    | SessionOpened(i: nat)
    | GaveUp(i: nat)
    | Return(i: nat)
    | Release(i: nat)
    | WarmStart(target: nat)
    | WarmLook(i: nat)
    | WarmAcquire(i: nat)
    | WarmOpened(i: nat)
    | WarmGaveUp(i: nat)
    | WarmPush(i: nat)
    | WarmRelease(i: nat)

  /** Permits a task holds. */
  function Held(t: Task): nat {
    match t
    case Popping => 1
    case Checking(_) => 1
    case Opening => 1
    case Holding(_) => 1
    case Returned => 1
    case WarmLooking(_, mine) => |mine|
    case WarmWaiting(_, mine) => |mine|
    case WarmOpening(_, mine) => |mine| + 1
    case WarmDone(mine) => |mine|
    case WarmReturned(held) => held
    case Gone => 0
  }

  /** Sessions a task has in hand. */
  function Hand(t: Task): seq<SessionId> {
    match t
    case Checking(s) => [s]
    case Holding(s) => [s]
    case WarmLooking(_, mine) => mine
    case WarmWaiting(_, mine) => mine
    case WarmOpening(_, mine) => mine
    case WarmDone(mine) => mine
    case Popping => []
    case Opening => []
    case Returned => []
    case WarmReturned(_) => []
    case Gone => []
  }

  /** A connection being opened counts too. */
  function Live(t: Task): nat {
    |Hand(t)| + if t.Opening? || t.WarmOpening? then 1 else 0
  }

  /** A warm-up that has not yet opened all it is going to. */
  predicate Warming(t: Task) {
    t.WarmLooking? || t.WarmWaiting? || t.WarmOpening?
  }

  /** Permits a warm-up may still acquire. */
  function Wanted(t: Task): nat {
    if Warming(t) && Held(t) < t.target then t.target - Held(t) else 0
  }

  /** A warm-up that has seen room for one more session counts on it. */
  function Waiting(t: Task): nat {
    if t.WarmWaiting? then 1 else 0
  }

  /** Only a warm-up below its target waits for a permit. */
  predicate Sensible(t: Task) {
    t.WarmWaiting? ==> |t.mine| < t.target
  }

  /** What one step of a task can see and change: the free permits, the idle sessions, itself. */
  datatype Local = Local(permits: nat, idle: seq<SessionId>, task: Task, next: SessionId)

  function TaskStep(l: Local, e: Event): Option<Local> {
    var t, n := l.task, |l.idle|;
    match e
    case PopNothing(_) => if t.Popping? && n == 0 then Some(l.(task := Opening)) else None
    case PopStale(_) => if t.Popping? && n > 0 then Some(l.(idle := l.idle[..n - 1])) else None
    case PopUsed(_, check) =>
      if t.Popping? && n > 0 then
        Some(l.(idle := l.idle[..n - 1], task := if check then Checking(l.idle[n - 1]) else Holding(l.idle[n - 1])))
      else None
    case CheckPassed(_) => if t.Checking? then Some(l.(task := Holding(t.session))) else None
    case CheckFailed(_) => if t.Checking? then Some(l.(task := Popping)) else None
    case SessionOpened(_) => if t.Opening? then Some(l.(task := Holding(l.next), next := l.next + 1)) else None
    case GaveUp(_) => if t.Checking? || t.Opening? then Some(Dropped(l)) else None
    case Return(_) => if t.Holding? then Some(l.(task := Returned, idle := l.idle + [t.session])) else None
    case Release(_) => if t.Returned? then Some(Dropped(l)) else None
    case WarmLook(_) =>
      if t.WarmLooking? then
        Some(l.(task := if n + |t.mine| < t.target then WarmWaiting(t.target, t.mine) else WarmDone(t.mine)))
      else None
    case WarmAcquire(_) =>
      if t.WarmWaiting? && l.permits > 0 then Some(l.(task := WarmOpening(t.target, t.mine), permits := l.permits - 1)) else None
    case WarmOpened(_) =>
      if t.WarmOpening? then Some(l.(task := WarmLooking(t.target, t.mine + [l.next]), next := l.next + 1)) else None
    case WarmGaveUp(_) => if t.WarmWaiting? || t.WarmOpening? then Some(Dropped(l)) else None
    case WarmPush(_) => if t.WarmDone? then Some(l.(task := WarmReturned(|t.mine|), idle := l.idle + t.mine)) else None
    case WarmRelease(_) => if t.WarmReturned? then Some(Dropped(l)) else None
    case Acquire => None
    case WarmStart(_) => None
  }

  /** As a task is dropped its permits go back, and what it has in hand is closed. */
  function Dropped(l: Local): Local {
    l.(task := Gone, permits := l.permits + Held(l.task))
  }

  function View(s: State, i: nat): Local
    requires i < |s.tasks|
  {
    Local(s.permits, s.idle, s.tasks[i], s.next)
  }

  function Merged(s: State, i: nat, l: Local): State
    requires i < |s.tasks|
  {
    State(s.max, l.permits, l.idle, s.tasks[i := l.task], l.next)
  }

  function Step(s: State, e: Event): Option<State> {
    match e
    case Acquire =>
      if s.permits > 0 then Some(s.(permits := s.permits - 1, tasks := s.tasks + [Popping])) else None
    case WarmStart(target) =>
      Some(s.(tasks := s.tasks + [WarmLooking(if target < s.max then target else s.max, [])]))
    case _ =>
      if e.i >= |s.tasks| || TaskStep(View(s, e.i), e).None? then None
      else Some(Merged(s, e.i, TaskStep(View(s, e.i), e).value))
  }

  // ----- sums over the tasks

  function Total(measure: Task -> nat, tasks: seq<Task>): nat {
    if tasks == [] then 0 else measure(tasks[0]) + Total(measure, tasks[1..])
  }

  function TotalHeld(tasks: seq<Task>): nat { Total(Held, tasks) }

  function TotalLive(tasks: seq<Task>): nat { Total(Live, tasks) }

  function TotalWanted(tasks: seq<Task>): nat { Total(Wanted, tasks) }

  function TotalWaiting(tasks: seq<Task>): nat { Total(Waiting, tasks) }

  function Hands(tasks: seq<Task>): multiset<SessionId> {
    if tasks == [] then multiset{} else multiset(Hand(tasks[0])) + Hands(tasks[1..])
  }

  lemma {:induction false} TotalAt(measure: Task -> nat, tasks: seq<Task>, i: nat, t: Task)
    requires i < |tasks|
    ensures Total(measure, tasks[i := t]) + measure(tasks[i]) == Total(measure, tasks) + measure(t)
    decreases |tasks|
  {
    if i > 0 {
      assert tasks[i := t][1..] == tasks[1..][i - 1 := t];
      TotalAt(measure, tasks[1..], i - 1, t);
    } else {
      assert tasks[i := t][1..] == tasks[1..];
    }
  }

  lemma {:induction false} TotalSnoc(measure: Task -> nat, tasks: seq<Task>, t: Task)
    ensures Total(measure, tasks + [t]) == Total(measure, tasks) + measure(t)
  {
    if tasks == [] {
      assert tasks + [t] == [t] && [t][1..] == [];
    } else {
      assert (tasks + [t])[1..] == tasks[1..] + [t];
      TotalSnoc(measure, tasks[1..], t);
    }
  }

  lemma {:induction false} TotalAtMost(measure: Task -> nat, bound: Task -> nat, tasks: seq<Task>)
    requires forall t :: t in tasks ==> measure(t) <= bound(t)
    ensures Total(measure, tasks) <= Total(bound, tasks)
  {
    if tasks != [] {
      TotalAtMost(measure, bound, tasks[1..]);
    }
  }

  lemma {:induction false} HandsAt(tasks: seq<Task>, i: nat, t: Task)
    requires i < |tasks|
    ensures Hands(tasks[i := t]) + multiset(Hand(tasks[i])) == Hands(tasks) + multiset(Hand(t))
    decreases |tasks|
  {
    hide Hand;
    if i > 0 {
      assert tasks[i := t][1..] == tasks[1..][i - 1 := t];
      HandsAt(tasks[1..], i - 1, t);
      assert Hands(tasks[i := t]) + multiset(Hand(tasks[i]))
          == multiset(Hand(tasks[0])) + (Hands(tasks[1..][i - 1 := t]) + multiset(Hand(tasks[i])));
    } else {
      assert tasks[i := t][1..] == tasks[1..];
    }
  }

  lemma {:induction false} HandsSnoc(tasks: seq<Task>, t: Task)
    ensures Hands(tasks + [t]) == Hands(tasks) + multiset(Hand(t))
  {
    hide Hand;
    if tasks == [] {
      assert tasks + [t] == [t] && [t][1..] == [];
    } else {
      assert (tasks + [t])[1..] == tasks[1..] + [t];
      HandsSnoc(tasks[1..], t);
    }
  }

  lemma LiveNeedsPermits(tasks: seq<Task>)
    ensures TotalLive(tasks) <= TotalHeld(tasks)
  {
    hide Total;
    TotalAtMost(Live, Held, tasks);
  }

  lemma WaitingWants(tasks: seq<Task>)
    requires forall t :: t in tasks ==> Sensible(t)
    ensures TotalWaiting(tasks) <= TotalWanted(tasks)
  {
    hide Total;
    TotalAtMost(Waiting, Wanted, tasks);
  }

  // ----- the invariant

  /** Every session there is: idle or in the hand of some task. */
  function Sessions(s: State): multiset<SessionId> {
    multiset(s.idle) + Hands(s.tasks)
  }

  /** No permit is lost or forged. */
  ghost predicate PermitsKept(s: State) {
    s.permits + TotalHeld(s.tasks) == s.max
  }

  /** No session is in two places, and new ones are really new. */
  ghost predicate SessionsDistinct(s: State) {
    forall x :: x in Sessions(s) ==> Sessions(s)[x] == 1 && x < s.next
  }

  /** Idle, opening and checked-out sessions together are within the limit. */
  ghost predicate Bounded(s: State) {
    |s.idle| + TotalLive(s.tasks) <= s.max
  }

  /** Warm-ups that have seen room for one more session still have it, all of them. */
  ghost predicate WarmUpsFit(s: State) {
    && |s.idle| + TotalLive(s.tasks) + TotalWaiting(s.tasks) <= s.max
    && forall t :: t in s.tasks ==> Sensible(t)
  }

  ghost predicate Inv(s: State) {
    PermitsKept(s) && SessionsDistinct(s) && Bounded(s) && WarmUpsFit(s)
  }

  /** The free permits cover all that the warm-ups under way may still acquire. */
  predicate Roomy(s: State) {
    TotalWanted(s.tasks) <= s.permits
  }

  // ----- every step keeps it

  lemma StartGood(max: nat)
    ensures Inv(Start(max))
  {
  }

  /** The idle sessions and the hand of one task. */
  function Near(l: Local): multiset<SessionId> {
    multiset(l.idle) + multiset(Hand(l.task))
  }

  /** What a step of one task changes in the sums. */
  lemma AfterMerge(s: State, i: nat, l: Local)
    requires i < |s.tasks|
    ensures var s' := Merged(s, i, l);
      && TotalHeld(s'.tasks) + Held(s.tasks[i]) == TotalHeld(s.tasks) + Held(l.task)
      && TotalLive(s'.tasks) + Live(s.tasks[i]) == TotalLive(s.tasks) + Live(l.task)
      && TotalWaiting(s'.tasks) + Waiting(s.tasks[i]) == TotalWaiting(s.tasks) + Waiting(l.task)
      && Sessions(s') + Near(View(s, i)) == Sessions(s) + Near(l)
  {
    hide Held, Live, Hand, Waiting, Total, Hands;
    TotalAt(Held, s.tasks, i, l.task);
    TotalAt(Live, s.tasks, i, l.task);
    TotalAt(Waiting, s.tasks, i, l.task);
    HandsAt(s.tasks, i, l.task);
    var s' := Merged(s, i, l);
    var a, b := multiset(s.idle), multiset(l.idle);
    assert Sessions(s') + (a + multiset(Hand(s.tasks[i]))) == (a + b) + (Hands(s'.tasks) + multiset(Hand(s.tasks[i])));
    assert Sessions(s) + (b + multiset(Hand(l.task))) == (a + b) + (Hands(s.tasks) + multiset(Hand(l.task)));
  }

  lemma Popped(idle: seq<SessionId>)
    requires idle != []
    ensures multiset(idle) == multiset(idle[..|idle| - 1]) + multiset{idle[|idle| - 1]}
  {
    assert idle == idle[..|idle| - 1] + [idle[|idle| - 1]];
  }

  /** Sessions are only handed on, closed, or opened with a new name. */
  ghost predicate HandedOn(s: State, s': State) {
    || (Sessions(s') <= Sessions(s) && s'.next == s.next)
    || (Sessions(s') == Sessions(s) + multiset{s.next} && s'.next == s.next + 1)
  }

  lemma DistinctKept(s: State, s': State)
    requires SessionsDistinct(s) && HandedOn(s, s')
    ensures SessionsDistinct(s')
  {
    hide Sessions;
    forall x | x in Sessions(s') ensures Sessions(s')[x] == 1 && x < s'.next {
      if Sessions(s') <= Sessions(s) {
        assert Sessions(s')[x] <= Sessions(s)[x];
      }
    }
  }

  lemma StepPermits(l: Local, e: Event)
    requires TaskStep(l, e).Some?
    ensures var l' := TaskStep(l, e).value; l'.permits + Held(l'.task) == l.permits + Held(l.task)
  {
  }

  /** Only two steps add to the sessions: opening one after finding none idle, and a warm-up's open. */
  lemma StepCounts(l: Local, e: Event)
    requires TaskStep(l, e).Some?
    ensures var l' := TaskStep(l, e).value;
      && (e.PopNothing? ==> l'.idle == [])
      && |l'.idle| + Live(l'.task) <= |l.idle| + Live(l.task) + if e.PopNothing? || e.WarmAcquire? then 1 else 0
  {
  }

  /** Sessions near a task are handed on, closed, or joined by a new one. */
  ghost predicate Moves(l: Local, l': Local) {
    || (Near(l') <= Near(l) && l'.next == l.next)
    || (Near(l') == Near(l) + multiset{l.next} && l'.next == l.next + 1)
  }

  /** A step that leaves the idle sessions alone. */
  lemma HandMoves(l: Local, l': Local)
    requires l'.idle == l.idle
    requires (Hand(l'.task) in {Hand(l.task), []} && l'.next == l.next)
          || (Hand(l'.task) == Hand(l.task) + [l.next] && l'.next == l.next + 1)
    ensures Moves(l, l')
  {
    hide Hand;
    assert multiset(Hand(l.task) + [l.next]) == multiset(Hand(l.task)) + multiset{l.next};
  }

  lemma PopMoves(l: Local, l': Local)
    requires l.idle != [] && l'.idle == l.idle[..|l.idle| - 1] && Hand(l.task) == [] && l'.next == l.next
    requires Hand(l'.task) in {[], [l.idle[|l.idle| - 1]]}
    ensures Moves(l, l')
  {
    hide Hand;
    Popped(l.idle);
  }

  lemma PushMoves(l: Local, l': Local)
    requires l'.idle == l.idle + Hand(l.task) && Hand(l'.task) == [] && l'.next == l.next
    ensures Moves(l, l')
  {
    hide Hand;
    assert multiset(l.idle + Hand(l.task)) == multiset(l.idle) + multiset(Hand(l.task));
  }

  lemma StepMoves(l: Local, e: Event)
    requires TaskStep(l, e).Some?
    ensures Moves(l, TaskStep(l, e).value)
  {
    hide Held, Moves;
    var l' := TaskStep(l, e).value;
    if e.PopStale? || e.PopUsed? {
      PopMoves(l, l');
    } else if e.Return? || e.WarmPush? {
      PushMoves(l, l');
    } else {
      HandMoves(l, l');
    }
  }

  lemma MovesHandOn(s: State, i: nat, l: Local)
    requires i < |s.tasks| && Moves(View(s, i), l)
    ensures HandedOn(s, Merged(s, i, l))
  {
    hide TotalHeld, TotalLive, Held, Live, Hands, Hand, Sessions, Near;
    AfterMerge(s, i, l);
    SessionsMoved(Sessions(s), Sessions(Merged(s, i, l)), Near(View(s, i)), Near(l));
  }

  lemma SessionsMoved(a: multiset<SessionId>, b: multiset<SessionId>, from: multiset<SessionId>, to: multiset<SessionId>)
    requires b + from == a + to
    ensures from == to ==> b == a
    ensures to <= from ==> b <= a
    ensures forall x :: to == from + multiset{x} ==> b == a + multiset{x}
  {
    forall y ensures b[y] + from[y] == a[y] + to[y] {
      assert (b + from)[y] == (a + to)[y];
    }
    if to <= from {
      forall y ensures b[y] <= a[y] { assert to[y] <= from[y]; }
    }
  }

  lemma {:induction false} NoneLeft(tasks: seq<Task>)
    requires forall j :: 0 <= j < |tasks| ==> tasks[j].Gone?
    ensures TotalHeld(tasks) == 0 && Hands(tasks) == multiset{}
  {
    if tasks != [] {
      NoneLeft(tasks[1..]);
    }
  }

  /** Permits balance, and the limit holds: a checkout opens when nothing is idle, so each session has a permit. */
  lemma CountsKept(s: State, e: Event, i: nat)
    requires i < |s.tasks| && TaskStep(View(s, i), e).Some? && PermitsKept(s) && Bounded(s)
    requires e.WarmAcquire? ==> |s.idle| + TotalLive(s.tasks) < s.max
    ensures var s' := Merged(s, i, TaskStep(View(s, i), e).value); PermitsKept(s') && Bounded(s')
  {
    hide TotalHeld, TotalLive, Held, Live, Sessions, TaskStep;
    var l := TaskStep(View(s, i), e).value;
    var s' := Merged(s, i, l);
    StepPermits(View(s, i), e);
    StepCounts(View(s, i), e);
    AfterMerge(s, i, l);
    LiveNeedsPermits(s'.tasks);
  }

  /** Only a look can make a warm-up count on room for one more session, and only when it has seen it. */
  lemma WaitCounts(l: Local, e: Event)
    requires TaskStep(l, e).Some? && Sensible(l.task)
    ensures var l' := TaskStep(l, e).value;
      && Sensible(l'.task)
      && (e.PopNothing? ==> l'.idle == [] && l'.permits == l.permits && Waiting(l'.task) == Waiting(l.task))
      && (!e.PopNothing? && !(e.WarmLook? && l'.task.WarmWaiting?) ==>
            |l'.idle| + Live(l'.task) + Waiting(l'.task) <= |l.idle| + Live(l.task) + Waiting(l.task))
  {
  }

  lemma LookCounts(l: Local, e: Event)
    requires TaskStep(l, e).Some? && e.WarmLook? && TaskStep(l, e).value.task.WarmWaiting?
    ensures var l' := TaskStep(l, e).value;
      && l'.idle == l.idle && Live(l'.task) == Live(l.task) == Held(l.task)
      && Waiting(l.task) == 0 && Waiting(l'.task) == 1
      && |l.idle| < Wanted(l.task)
  {
  }

  /** What the tasks other than `i` have open, hold and count on. */
  lemma Others(s: State, i: nat)
    requires i < |s.tasks| && WarmUpsFit(s)
    ensures TotalLive(s.tasks) - Live(s.tasks[i]) <= TotalHeld(s.tasks) - Held(s.tasks[i])
    ensures TotalWaiting(s.tasks) - Waiting(s.tasks[i]) <= TotalWanted(s.tasks) - Wanted(s.tasks[i])
  {
    hide Total, Held, Live, Waiting, Wanted;
    var others := s.tasks[i := Gone];
    NothingLeft();
    TotalAt(Held, s.tasks, i, Gone);
    TotalAt(Live, s.tasks, i, Gone);
    TotalAt(Waiting, s.tasks, i, Gone);
    TotalAt(Wanted, s.tasks, i, Gone);
    LiveNeedsPermits(others);
    forall t | t in others ensures Sensible(t) {
      var k :| 0 <= k < |others| && others[k] == t;
      assert k != i ==> s.tasks[k] == t;
    }
    WaitingWants(others);
  }

  lemma NothingLeft()
    ensures Held(Gone) == Live(Gone) == Waiting(Gone) == Wanted(Gone) == 0
  {
  }

  /** While the free permits cover the warm-ups, each still has the room it has seen. */
  lemma FitsKept(s: State, e: Event, i: nat)
    requires i < |s.tasks| && TaskStep(View(s, i), e).Some?
    requires PermitsKept(s) && WarmUpsFit(s) && Roomy(s)
    ensures WarmUpsFit(Merged(s, i, TaskStep(View(s, i), e).value))
  {
    hide TotalHeld, TotalLive, TotalWanted, TotalWaiting, Held, Live, Waiting, Wanted, Sensible, Sessions, TaskStep;
    var l := TaskStep(View(s, i), e).value;
    var s' := Merged(s, i, l);
    assert s.tasks[i] in s.tasks;
    WaitCounts(View(s, i), e);
    AfterMerge(s, i, l);
    if e.PopNothing? {
      StepPermits(View(s, i), e);
      LiveNeedsPermits(s'.tasks);
      WaitingWants(s.tasks);
    } else if e.WarmLook? && l.task.WarmWaiting? {
      LookCounts(View(s, i), e);
      Others(s, i);
    }
    forall t | t in s'.tasks ensures Sensible(t) {
      var k :| 0 <= k < |s'.tasks| && s'.tasks[k] == t;
      assert k != i ==> s.tasks[k] == t;
    }
  }

  lemma NewTask(s: State, t: Task, s': State)
    requires Inv(s) && s'.tasks == s.tasks + [t] && s'.max == s.max && s'.idle == s.idle && s'.next == s.next
    requires s'.permits + Held(t) == s.permits && Hand(t) == [] && Live(t) == 0
    requires !t.WarmWaiting?
    ensures Inv(s')
  {
    hide Held, Hands, Hand, Live, Total;
    TotalSnoc(Held, s.tasks, t);
    TotalSnoc(Live, s.tasks, t);
    TotalSnoc(Waiting, s.tasks, t);
    HandsSnoc(s.tasks, t);
    assert multiset(Hand(t)) == multiset{};
    assert Sessions(s') == Sessions(s);
  }

  /** Every step keeps the invariant, as long as the free permits cover the warm-ups. */
  lemma StepKeeps(s: State, e: Event)
    requires Inv(s) && Roomy(s) && Step(s, e).Some?
    ensures Inv(Step(s, e).value)
  {
    hide Held, Hand, Live, TotalHeld, TotalLive, Hands, TaskStep, PermitsKept, SessionsDistinct, Bounded, WarmUpsFit, Roomy;
    if e.Acquire? {
      PoppingHolds();
      NewTask(s, Popping, Step(s, e).value);
    } else if e.WarmStart? {
      var target := if e.target < s.max then e.target else s.max;
      LookingHolds(target);
      NewTask(s, WarmLooking(target, []), Step(s, e).value);
    } else {
      var l := TaskStep(View(s, e.i), e).value;
      if e.WarmAcquire? { AcquireFits(s, e); }
      CountsKept(s, e, e.i);
      FitsKept(s, e, e.i);
      StepMoves(View(s, e.i), e);
      MovesHandOn(s, e.i, l);
      DistinctKept(s, Merged(s, e.i, l));
    }
  }

  /** A warm-up that gets its permit has kept its room. */
  lemma AcquireFits(s: State, e: Event)
    requires WarmUpsFit(s) && Step(s, e).Some? && e.WarmAcquire?
    ensures |s.idle| + TotalLive(s.tasks) < s.max
  {
    hide Total, Live;
    NothingLeft();
    TotalAt(Waiting, s.tasks, e.i, Gone);
  }

  lemma PoppingHolds()
    ensures Held(Popping) == 1 && Hand(Popping) == [] && Live(Popping) == 0
  {
  }

  lemma LookingHolds(target: nat)
    ensures var t := WarmLooking(target, []); Held(t) == 0 && Hand(t) == [] && Live(t) == 0
  {
  }

  // ----- whole runs

  function Run(s: State, events: seq<Event>): Option<State>
    decreases |events|
  {
    if events == [] then Some(s)
    else
      match Step(s, events[0])
      case None => None
      case Some(s') => Run(s', events[1..])
  }

  /** Before each step the free permits cover what the warm-ups may still acquire. */
  ghost predicate PermitsCoverWarmUps(s: State, events: seq<Event>)
    decreases |events|
  {
    events != [] && Step(s, events[0]).Some? ==>
      Roomy(s) && PermitsCoverWarmUps(Step(s, events[0]).value, events[1..])
  }

  ghost predicate AlwaysBounded(s: State, events: seq<Event>)
    decreases |events|
  {
    Bounded(s) && (events != [] && Step(s, events[0]).Some? ==> AlwaysBounded(Step(s, events[0]).value, events[1..]))
  }

  /**
   However checkouts, returns, failures, cancellations and any number of warm-ups interleave, while
   the free permits cover the warm-ups: idle, opening and checked-out sessions never exceed the limit,
   none is in two places, and no permit is lost.
   */
  lemma {:induction false} RunsStayGood(s: State, events: seq<Event>)
    requires Inv(s) && PermitsCoverWarmUps(s, events) && Run(s, events).Some?
    ensures Inv(Run(s, events).value) && AlwaysBounded(s, events)
    decreases |events|
  {
    hide Step, Inv, Roomy, Bounded;
    InvBounded(s);
    if events != [] {
      StepKeeps(s, events[0]);
      RunsStayGood(Step(s, events[0]).value, events[1..]);
    }
  }

  lemma InvBounded(s: State)
    requires Inv(s)
    ensures Bounded(s)
  {
  }

  /** A warm-up that has the pool to itself, up to no more than the limit, is covered. */
  lemma AloneIsCovered(s: State, i: nat)
    requires PermitsKept(s) && i < |s.tasks| && (Warming(s.tasks[i]) ==> s.tasks[i].target <= s.max)
    requires forall j :: 0 <= j < |s.tasks| && j != i ==> s.tasks[j].Gone?
    ensures Roomy(s)
  {
    hide Total, Held, Wanted;
    NothingLeft();
    WantedIs(s.tasks[i]);
    OnlyOne(Held, s.tasks, i);
    OnlyOne(Wanted, s.tasks, i);
  }

  lemma WantedIs(t: Task)
    ensures Wanted(t) == if Warming(t) && Held(t) < t.target then t.target - Held(t) else 0
  {
  }

  lemma OnlyOne(measure: Task -> nat, tasks: seq<Task>, i: nat)
    requires i < |tasks| && measure(Gone) == 0
    requires forall j :: 0 <= j < |tasks| && j != i ==> tasks[j].Gone?
    ensures Total(measure, tasks) == measure(tasks[i])
    decreases |tasks|
  {
    hide Total;
    var gone := seq(|tasks|, _ => Gone);
    assert tasks == gone[i := tasks[i]];
    NoneOfThem(measure, gone);
    TotalAt(measure, gone, i, tasks[i]);
  }

  lemma {:induction false} NoneOfThem(measure: Task -> nat, tasks: seq<Task>)
    requires measure(Gone) == 0 && forall j :: 0 <= j < |tasks| ==> tasks[j].Gone?
    ensures Total(measure, tasks) == 0
  {
    if tasks != [] {
      NoneOfThem(measure, tasks[1..]);
    }
  }

  // ----- with warm-ups at any time

  /** Every warm-up's open comes when there is room for one more session. */
  ghost predicate RoomForWarmUps(s: State, events: seq<Event>)
    decreases |events|
  {
    events != [] && Step(s, events[0]).Some? ==>
      && (events[0].WarmAcquire? ==> |s.idle| + TotalLive(s.tasks) < s.max)
      && RoomForWarmUps(Step(s, events[0]).value, events[1..])
  }

  lemma NewTaskCounts(s: State, t: Task, s': State)
    requires PermitsKept(s) && Bounded(s) && s'.tasks == s.tasks + [t] && s'.max == s.max && s'.idle == s.idle
    requires s'.permits + Held(t) == s.permits && Live(t) == 0
    ensures PermitsKept(s') && Bounded(s')
  {
    hide Held, Live, Total;
    TotalSnoc(Held, s.tasks, t);
    TotalSnoc(Live, s.tasks, t);
  }

  /** One step keeps permits, and keeps the limit exactly when it is not a warm-up's open without room. */
  lemma StepBounded(s: State, e: Event)
    requires PermitsKept(s) && Bounded(s) && Step(s, e).Some?
    ensures PermitsKept(Step(s, e).value)
    ensures Bounded(Step(s, e).value) <==> (e.WarmAcquire? ==> |s.idle| + TotalLive(s.tasks) < s.max)
  {
    hide Held, Live, TotalHeld, TotalLive, TaskStep, PermitsKept, Bounded;
    if e.Acquire? {
      PoppingHolds();
      NewTaskCounts(s, Popping, Step(s, e).value);
    } else if e.WarmStart? {
      var target := if e.target < s.max then e.target else s.max;
      LookingHolds(target);
      NewTaskCounts(s, WarmLooking(target, []), Step(s, e).value);
    } else if e.WarmAcquire? {
      WarmAcquireCounts(s, e, e.i);
    } else {
      CountsKept(s, e, e.i);
    }
  }

  lemma WarmAcquireCounts(s: State, e: Event, i: nat)
    requires i < |s.tasks| && e.WarmAcquire? && TaskStep(View(s, i), e).Some? && PermitsKept(s)
    ensures var s' := Merged(s, i, TaskStep(View(s, i), e).value);
      PermitsKept(s') && |s'.idle| + TotalLive(s'.tasks) == |s.idle| + TotalLive(s.tasks) + 1
    ensures Bounded(Merged(s, i, TaskStep(View(s, i), e).value)) <==> |s.idle| + TotalLive(s.tasks) < s.max
  {
    hide TotalHeld, TotalLive, Sessions;
    AfterMerge(s, i, TaskStep(View(s, i), e).value);
  }

  lemma NewTaskApart(s: State, t: Task, s': State)
    requires PermitsKept(s) && SessionsDistinct(s) && s'.tasks == s.tasks + [t] && s'.max == s.max && s'.idle == s.idle
    requires s'.next == s.next && s'.permits + Held(t) == s.permits && Hand(t) == []
    ensures PermitsKept(s') && SessionsDistinct(s')
  {
    hide Held, Hand, Total, Hands;
    TotalSnoc(Held, s.tasks, t);
    HandsSnoc(s.tasks, t);
    assert multiset(Hand(t)) == multiset{};
    assert Sessions(s') == Sessions(s);
  }

  /** Permits and the identity of sessions do not depend on warm-ups running alone. */
  lemma StepApart(s: State, e: Event)
    requires PermitsKept(s) && SessionsDistinct(s) && Step(s, e).Some?
    ensures PermitsKept(Step(s, e).value) && SessionsDistinct(Step(s, e).value)
  {
    hide Held, Hand, Live, TotalHeld, TotalLive, Hands, TaskStep, SessionsDistinct, Sessions;
    if e.Acquire? {
      PoppingHolds();
      NewTaskApart(s, Popping, Step(s, e).value);
    } else if e.WarmStart? {
      var target := if e.target < s.max then e.target else s.max;
      LookingHolds(target);
      NewTaskApart(s, WarmLooking(target, []), Step(s, e).value);
    } else {
      var l := TaskStep(View(s, e.i), e).value;
      StepPermits(View(s, e.i), e);
      AfterMerge(s, e.i, l);
      StepMoves(View(s, e.i), e);
      MovesHandOn(s, e.i, l);
      DistinctKept(s, Merged(s, e.i, l));
    }
  }

  /** Over any run at all, permits balance and no session is in two places. */
  lemma {:induction false} RunsStayApart(s: State, events: seq<Event>)
    requires PermitsKept(s) && SessionsDistinct(s) && Run(s, events).Some?
    ensures PermitsKept(Run(s, events).value) && SessionsDistinct(Run(s, events).value)
    decreases |events|
  {
    hide Step, PermitsKept, SessionsDistinct;
    if events != [] {
      StepApart(s, events[0]);
      RunsStayApart(Step(s, events[0]).value, events[1..]);
    }
  }

  /** Over any run at all, the limit holds throughout if and only if each warm-up opens with room to spare. */
  lemma {:induction false} BoundedIff(s: State, events: seq<Event>)
    requires PermitsKept(s) && Bounded(s)
    ensures AlwaysBounded(s, events) <==> RoomForWarmUps(s, events)
    decreases |events|
  {
    hide Step, Bounded, PermitsKept, TotalLive;
    if events != [] && Step(s, events[0]).Some? {
      StepBounded(s, events[0]);
      var s' := Step(s, events[0]).value;
      if Bounded(s') {
        BoundedIff(s', events[1..]);
      }
    }
  }

  /**
   When all tasks are over, however they interleaved, every permit is back and every session left is
   idle, each once; and no more than the limit, if each warm-up opened with room to spare.
   */
  lemma QuietPool(max: nat, events: seq<Event>)
    requires Run(Start(max), events).Some?
    requires forall j :: 0 <= j < |Run(Start(max), events).value.tasks| ==> Run(Start(max), events).value.tasks[j].Gone?
    ensures var s := Run(Start(max), events).value;
      && s.permits == max
      && (forall x, y :: 0 <= x < y < |s.idle| ==> s.idle[x] != s.idle[y])
      && (RoomForWarmUps(Start(max), events) ==> |s.idle| <= max)
  {
    hide Step, Run, RoomForWarmUps, AlwaysBounded, TotalHeld, TotalLive, Hands;
    StartGood(max);
    RunsStayApart(Start(max), events);
    var s := Run(Start(max), events).value;
    NoneLeft(s.tasks);
    MaxKept(Start(max), events);
    OncePerIdle(s);
    BoundedIff(Start(max), events);
    if AlwaysBounded(Start(max), events) {
      BoundedToTheEnd(Start(max), events);
    }
  }

  lemma {:induction false} BoundedToTheEnd(s: State, events: seq<Event>)
    requires AlwaysBounded(s, events) && Run(s, events).Some?
    ensures Bounded(Run(s, events).value)
    decreases |events|
  {
    hide Step, Bounded;
    if events != [] {
      BoundedToTheEnd(Step(s, events[0]).value, events[1..]);
    }
  }

  lemma OncePerIdle(s: State)
    requires SessionsDistinct(s)
    ensures forall x, y :: 0 <= x < y < |s.idle| ==> s.idle[x] != s.idle[y]
  {
    hide Hands;
    forall x, y | 0 <= x < y < |s.idle| ensures s.idle[x] != s.idle[y] {
      var a, b := s.idle[..y], s.idle[y..];
      assert s.idle == a + b;
      assert a[x] in multiset(a) && b[0] in multiset(b);
      assert s.idle[x] == s.idle[y] ==> multiset(s.idle)[s.idle[x]] >= 2;
      assert s.idle[x] in Sessions(s);
    }
  }

  lemma {:induction false} MaxKept(s: State, events: seq<Event>)
    requires Run(s, events).Some?
    ensures Run(s, events).value.max == s.max
    decreases |events|
  {
    if events != [] {
      MaxKept(Step(s, events[0]).value, events[1..]);
    }
  }

  /**
   Beside a checkout that is returned in the meantime, a warm-up opens a session it no longer has
   room for: a pool of one ends up with two.
   */
  lemma WarmUpBesideReturn()
    ensures var events := [Acquire, PopNothing(0), SessionOpened(0), WarmStart(1), WarmLook(1), Return(0), Release(0),
                           WarmAcquire(1), WarmOpened(1), WarmLook(1), WarmPush(1)];
      Run(Start(1), events).Some? && !Bounded(Run(Start(1), events).value) && |Run(Start(1), events).value.idle| == 2
  {
    hide Step, Run;
    var events := [Acquire, PopNothing(0), SessionOpened(0), WarmStart(1), WarmLook(1), Return(0), Release(0),
                   WarmAcquire(1), WarmOpened(1), WarmLook(1), WarmPush(1)];
    var states := [
      Start(1),
      State(1, 0, [], [Popping], 0),
      State(1, 0, [], [Opening], 0),
      State(1, 0, [], [Holding(0)], 1),
      State(1, 0, [], [Holding(0), WarmLooking(1, [])], 1),
      State(1, 0, [], [Holding(0), WarmWaiting(1, [])], 1),
      State(1, 0, [0], [Returned, WarmWaiting(1, [])], 1),
      State(1, 1, [0], [Gone, WarmWaiting(1, [])], 1),
      State(1, 0, [0], [Gone, WarmOpening(1, [])], 1),
      State(1, 0, [0], [Gone, WarmLooking(1, [1])], 2),
      State(1, 0, [0], [Gone, WarmDone([1])], 2),
      State(1, 0, [0, 1], [Gone, WarmReturned(1)], 2)];
    CheckoutSteps();
    LookSteps();
    ReleaseSteps();
    PushSteps();
    TraceRuns(states, events);
  }

  /** A step of task `i`, from its local effect. */
  lemma Stepped(s: State, e: Event, i: nat, t: Task, s': State)
    requires i < |s.tasks| && !e.Acquire? && !e.WarmStart? && e.i == i
    requires TaskStep(View(s, i), e) == Some(Local(s'.permits, s'.idle, t, s'.next))
    requires s'.max == s.max && s'.tasks == s.tasks[i := t]
    ensures Step(s, e) == Some(s')
  {
    hide TaskStep;
  }

  lemma CheckoutSteps()
    ensures Step(Start(1), Acquire) == Some(State(1, 0, [], [Popping], 0))
    ensures Step(State(1, 0, [], [Popping], 0), PopNothing(0)) == Some(State(1, 0, [], [Opening], 0))
    ensures Step(State(1, 0, [], [Opening], 0), SessionOpened(0)) == Some(State(1, 0, [], [Holding(0)], 1))
  {
    hide Step;
    assert Step(Start(1), Acquire) == Some(State(1, 0, [], [Popping], 0)) by { FirstAcquire(); }
    Stepped(State(1, 0, [], [Popping], 0), PopNothing(0), 0, Opening, State(1, 0, [], [Opening], 0));
    Stepped(State(1, 0, [], [Opening], 0), SessionOpened(0), 0, Holding(0), State(1, 0, [], [Holding(0)], 1));
  }

  lemma FirstAcquire()
    ensures Step(Start(1), Acquire) == Some(State(1, 0, [], [Popping], 0))
  {
    assert [] + [Popping] == [Popping];
  }

  lemma FirstWarmStart()
    ensures Step(State(1, 0, [], [Holding(0)], 1), WarmStart(1)) == Some(State(1, 0, [], [Holding(0), WarmLooking(1, [])], 1))
  {
    assert [Holding(0)] + [WarmLooking(1, [])] == [Holding(0), WarmLooking(1, [])];
  }

  lemma LookSteps()
    ensures Step(State(1, 0, [], [Holding(0)], 1), WarmStart(1)) == Some(State(1, 0, [], [Holding(0), WarmLooking(1, [])], 1))
    ensures Step(State(1, 0, [], [Holding(0), WarmLooking(1, [])], 1), WarmLook(1))
         == Some(State(1, 0, [], [Holding(0), WarmWaiting(1, [])], 1))
    ensures Step(State(1, 0, [], [Holding(0), WarmWaiting(1, [])], 1), Return(0))
         == Some(State(1, 0, [0], [Returned, WarmWaiting(1, [])], 1))
  {
    hide Step;
    FirstWarmStart();
    var looking, waiting := WarmLooking(1, []), WarmWaiting(1, []);
    Stepped(State(1, 0, [], [Holding(0), looking], 1), WarmLook(1), 1, waiting, State(1, 0, [], [Holding(0), waiting], 1));
    assert [] + [0] == [0];
    Stepped(State(1, 0, [], [Holding(0), waiting], 1), Return(0), 0, Returned, State(1, 0, [0], [Returned, waiting], 1));
  }

  lemma ReleaseSteps()
    ensures Step(State(1, 0, [0], [Returned, WarmWaiting(1, [])], 1), Release(0)) == Some(State(1, 1, [0], [Gone, WarmWaiting(1, [])], 1))
    ensures Step(State(1, 1, [0], [Gone, WarmWaiting(1, [])], 1), WarmAcquire(1)) == Some(State(1, 0, [0], [Gone, WarmOpening(1, [])], 1))
    ensures Step(State(1, 0, [0], [Gone, WarmOpening(1, [])], 1), WarmOpened(1)) == Some(State(1, 0, [0], [Gone, WarmLooking(1, [1])], 2))
  {
    hide Step;
    var waiting, opening, looking := WarmWaiting(1, []), WarmOpening(1, []), WarmLooking(1, [1]);
    Stepped(State(1, 0, [0], [Returned, waiting], 1), Release(0), 0, Gone, State(1, 1, [0], [Gone, waiting], 1));
    Stepped(State(1, 1, [0], [Gone, waiting], 1), WarmAcquire(1), 1, opening, State(1, 0, [0], [Gone, opening], 1));
    assert [] + [1] == [1];
    Stepped(State(1, 0, [0], [Gone, opening], 1), WarmOpened(1), 1, looking, State(1, 0, [0], [Gone, looking], 2));
  }

  lemma PushSteps()
    ensures Step(State(1, 0, [0], [Gone, WarmLooking(1, [1])], 2), WarmLook(1)) == Some(State(1, 0, [0], [Gone, WarmDone([1])], 2))
    ensures Step(State(1, 0, [0], [Gone, WarmDone([1])], 2), WarmPush(1)) == Some(State(1, 0, [0, 1], [Gone, WarmReturned(1)], 2))
  {
    hide Step;
    Stepped(State(1, 0, [0], [Gone, WarmLooking(1, [1])], 2), WarmLook(1), 1, WarmDone([1]), State(1, 0, [0], [Gone, WarmDone([1])], 2));
    assert [0] + [1] == [0, 1];
    Stepped(State(1, 0, [0], [Gone, WarmDone([1])], 2), WarmPush(1), 1, WarmReturned(1), State(1, 0, [0, 1], [Gone, WarmReturned(1)], 2));
  }

  lemma {:induction false} TraceRuns(states: seq<State>, events: seq<Event>)
    requires |states| == |events| + 1
    requires forall k :: 0 <= k < |events| ==> Step(states[k], events[k]) == Some(states[k + 1])
    ensures Run(states[0], events) == Some(states[|events|])
    decreases |events|
  {
    hide Step;
    if events != [] {
      var more := events[1..];
      assert forall k :: 0 <= k < |more| ==> Step(states[1..][k], more[k]) == Some(states[1..][k + 1]);
      TraceRuns(states[1..], more);
    }
  }
}
