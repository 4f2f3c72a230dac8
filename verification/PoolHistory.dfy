/** Where the sessions of the pool come from and go to, over whole runs. */
module PoolHistory {
  import opened Bytes
  import opened Pool

  /** A run, state by state. */
  ghost predicate Trace(states: seq<State>, events: seq<Event>) {
    && |states| == |events| + 1
    && forall k :: 0 <= k < |events| ==> Step(states[k], events[k]) == Some(states[k + 1])
  }

  /** The session is in no task's hand and not idle. */
  ghost predicate Absent(s: State, x: SessionId) {
    && x !in s.idle
    && forall i :: 0 <= i < |s.tasks| ==> x !in Hand(s.tasks[i])
  }

  lemma {:induction false} InHands(tasks: seq<Task>, x: SessionId)
    ensures x in Hands(tasks) <==> exists i :: 0 <= i < |tasks| && x in Hand(tasks[i])
  {
    hide Hand;
    if tasks != [] {
      var rest := tasks[1..];
      InHands(rest, x);
      assert x in multiset(Hand(tasks[0])) <==> x in Hand(tasks[0]);
      assert forall i :: 0 <= i < |rest| ==> rest[i] == tasks[i + 1];
      if i :| 0 <= i < |tasks| && x in Hand(tasks[i]) {
        assert i > 0 ==> x in Hand(rest[i - 1]);
      }
    }
  }

  lemma AbsentIs(s: State, x: SessionId)
    ensures Absent(s, x) <==> x !in Sessions(s)
  {
    hide Hand, Hands;
    InHands(s.tasks, x);
    assert x in multiset(s.idle) <==> x in s.idle;
  }

  lemma TraceAt(states: seq<State>, events: seq<Event>, k: nat)
    requires Trace(states, events) && k < |events|
    ensures Step(states[k], events[k]) == Some(states[k + 1])
  {
    hide Step;
  }

  // ----- what each step does to the sessions

  /** The sessions a step gives up: found stale, failed a check, or in the hands of a call that gave up. */
  function Closed(s: State, e: Event): seq<SessionId> {
    match e
    case PopStale(_) => if s.idle != [] then [s.idle[|s.idle| - 1]] else []
    case CheckFailed(i) => HandOf(s, i)
    case GaveUp(i) => HandOf(s, i)
    case WarmGaveUp(i) => HandOf(s, i)
    case _ => []
  }

  function HandOf(s: State, i: nat): seq<SessionId> {
    if i < |s.tasks| then Hand(s.tasks[i]) else []
  }

  /** The sessions a step opens. */
  function OpenedBy(s: State, e: Event): seq<SessionId> {
    match e
    case SessionOpened(_) => [s.next]
    case WarmOpened(_) => [s.next]
    case _ => []
  }

  function LocalClosed(l: Local, e: Event): seq<SessionId> {
    if e.PopStale? then (if l.idle != [] then [l.idle[|l.idle| - 1]] else [])
    else if e.CheckFailed? || e.GaveUp? || e.WarmGaveUp? then Hand(l.task)
    else []
  }

  function LocalOpened(l: Local, e: Event): seq<SessionId> {
    if e.SessionOpened? || e.WarmOpened? then [l.next] else []
  }

  /** What a step of one task does to the idle sessions and to its own hand. */
  lemma HandAfter(l: Local, e: Event)
    requires TaskStep(l, e).Some?
    ensures var l' := TaskStep(l, e).value;
      && l'.next == l.next + |LocalOpened(l, e)|
      && (e.PopStale? || e.PopUsed? ==>
            && l.idle != [] && l'.idle == l.idle[..|l.idle| - 1] && Hand(l.task) == []
            && Hand(l'.task) == if e.PopStale? then [] else [l.idle[|l.idle| - 1]])
      && (e.Return? || e.WarmPush? ==> l'.idle == l.idle + Hand(l.task) && Hand(l'.task) == [])
      && (!e.PopStale? && !e.PopUsed? && !e.Return? && !e.WarmPush? ==>
            l'.idle == l.idle && Hand(l'.task) == if LocalClosed(l, e) != [] then [] else Hand(l.task) + LocalOpened(l, e))
  {
  }

  lemma LocalSessions(l: Local, e: Event)
    requires TaskStep(l, e).Some?
    ensures Near(TaskStep(l, e).value) + multiset(LocalClosed(l, e)) == Near(l) + multiset(LocalOpened(l, e))
    ensures TaskStep(l, e).value.next == l.next + |LocalOpened(l, e)|
  {
    hide TaskStep, Near, Hand;
    HandAfter(l, e);
    var l' := TaskStep(l, e).value;
    if e.PopStale? || e.PopUsed? {
      PopNear(l, l');
    } else if e.Return? || e.WarmPush? {
      PushNear(l, l');
    } else if e.SessionOpened? || e.WarmOpened? {
      OpenNear(l, l');
    } else {
      StayNear(l, l');
    }
  }

  lemma PopNear(l: Local, l': Local)
    requires l.idle != [] && l'.idle == l.idle[..|l.idle| - 1] && Hand(l.task) == []
    ensures Hand(l'.task) == [l.idle[|l.idle| - 1]] ==> Near(l') == Near(l)
    ensures Hand(l'.task) == [] ==> Near(l') + multiset([l.idle[|l.idle| - 1]]) == Near(l)
  {
    hide Hand;
    Popped(l.idle);
    assert multiset([l.idle[|l.idle| - 1]]) == multiset{l.idle[|l.idle| - 1]};
  }

  lemma PushNear(l: Local, l': Local)
    requires l'.idle == l.idle + Hand(l.task) && Hand(l'.task) == []
    ensures Near(l') == Near(l)
  {
    hide Hand;
    assert multiset(l.idle + Hand(l.task)) == multiset(l.idle) + multiset(Hand(l.task));
  }

  lemma OpenNear(l: Local, l': Local)
    requires l'.idle == l.idle && Hand(l'.task) == Hand(l.task) + [l.next]
    ensures Near(l') == Near(l) + multiset([l.next])
  {
    hide Hand;
    assert multiset(Hand(l.task) + [l.next]) == multiset(Hand(l.task)) + multiset([l.next]);
  }

  lemma StayNear(l: Local, l': Local)
    requires l'.idle == l.idle
    ensures Hand(l'.task) == Hand(l.task) ==> Near(l') == Near(l)
    ensures Hand(l'.task) == [] ==> Near(l') + multiset(Hand(l.task)) == Near(l)
  {
    hide Hand;
  }

  /**
   Nothing is lost and nothing is kept too long: a step closes just the sessions it finds stale, that
   fail their check or that are in the hand of a call that gives up, opens at most one, and every
   other session stays in the pool or in some hand.
   */
  lemma SessionsAccounted(s: State, e: Event)
    requires Step(s, e).Some?
    ensures Sessions(Step(s, e).value) + multiset(Closed(s, e)) == Sessions(s) + multiset(OpenedBy(s, e))
    ensures Step(s, e).value.next == s.next + |OpenedBy(s, e)|
  {
    hide Hand, Hands, Held, TaskStep, Near;
    if e.Acquire? {
      NoHand(Popping);
      HandsSnoc(s.tasks, Popping);
    } else if e.WarmStart? {
      var t := WarmLooking(if e.target < s.max then e.target else s.max, []);
      NoHand(t);
      HandsSnoc(s.tasks, t);
    } else {
      TaskAccounted(s, e, e.i);
    }
  }

  lemma TaskAccounted(s: State, e: Event, i: nat)
    requires Step(s, e).Some? && !e.Acquire? && !e.WarmStart? && e.i == i
    ensures Sessions(Step(s, e).value) + multiset(Closed(s, e)) == Sessions(s) + multiset(OpenedBy(s, e))
    ensures Step(s, e).value.next == s.next + |OpenedBy(s, e)|
  {
    StepIsMerged(s, e, i);
    ClosedLocally(s, e, i);
    hide *;
    var l := TaskStep(View(s, i), e).value;
    LocalSessions(View(s, i), e);
    AfterMerge(s, i, l);
    MergedNext(s, i, l);
    Balanced(Sessions(Step(s, e).value), Sessions(s), Near(View(s, i)), Near(l), multiset(Closed(s, e)), multiset(OpenedBy(s, e)));
  }

  lemma MergedNext(s: State, i: nat, l: Local)
    requires i < |s.tasks|
    ensures Merged(s, i, l).next == l.next && View(s, i).next == s.next
  {
  }

  lemma StepIsMerged(s: State, e: Event, i: nat)
    requires Step(s, e).Some? && !e.Acquire? && !e.WarmStart? && e.i == i
    ensures i < |s.tasks| && TaskStep(View(s, i), e).Some?
    ensures Step(s, e) == Some(Merged(s, i, TaskStep(View(s, i), e).value))
  {
    hide TaskStep;
  }

  lemma ClosedLocally(s: State, e: Event, i: nat)
    requires i < |s.tasks| && !e.Acquire? && !e.WarmStart? && e.i == i
    ensures Closed(s, e) == LocalClosed(View(s, i), e) && OpenedBy(s, e) == LocalOpened(View(s, i), e)
  {
    hide Hand;
  }

  lemma NoHand(t: Task)
    requires t == Popping || (t.WarmLooking? && t.mine == [])
    ensures multiset(Hand(t)) == multiset{}
  {
  }

  lemma Balanced(after: multiset<SessionId>, before: multiset<SessionId>, near: multiset<SessionId>, near': multiset<SessionId>,
                 closed: multiset<SessionId>, opened_: multiset<SessionId>)
    requires after + near == before + near' && near' + closed == near + opened_
    ensures after + closed == before + opened_
  {
    forall y ensures (after + closed)[y] == (before + opened_)[y] {
      assert (after + near)[y] == (before + near')[y] && (near' + closed)[y] == (near + opened_)[y];
    }
  }

  // ----- what is given up stays away

  lemma ClosedIsAbsent(s: State, e: Event, x: SessionId)
    requires SessionsDistinct(s) && Step(s, e).Some? && x in Closed(s, e)
    ensures Absent(Step(s, e).value, x) && x < s.next
  {
    hide Step, Hand, Hands, Sessions;
    SessionsAccounted(s, e);
    AbsentIs(Step(s, e).value, x);
    ClosedThere(s, e, x);
    NotBoth(s, e);
    var after := Sessions(Step(s, e).value);
    assert (after + multiset(Closed(s, e)))[x] == (Sessions(s) + multiset(OpenedBy(s, e)))[x];
  }

  lemma NotBoth(s: State, e: Event)
    ensures Closed(s, e) != [] ==> OpenedBy(s, e) == []
  {
  }

  lemma ClosedThere(s: State, e: Event, x: SessionId)
    requires x in Closed(s, e)
    ensures x in Sessions(s)
  {
    hide Hand, Hands;
    if e.PopStale? {
      assert x in s.idle && x in multiset(s.idle);
    } else {
      assert x in Hand(s.tasks[e.i]);
      InHands(s.tasks, x);
    }
  }

  lemma AbsentStays(s: State, e: Event, x: SessionId)
    requires Step(s, e).Some? && Absent(s, x) && x < s.next
    ensures Absent(Step(s, e).value, x) && x < Step(s, e).value.next
  {
    hide Step, Hand, Hands, Sessions;
    SessionsAccounted(s, e);
    AbsentIs(s, x);
    AbsentIs(Step(s, e).value, x);
    NewName(s, e, x);
    assert (Sessions(Step(s, e).value) + multiset(Closed(s, e)))[x] == (Sessions(s) + multiset(OpenedBy(s, e)))[x];
  }

  lemma NewName(s: State, e: Event, x: SessionId)
    requires x < s.next
    ensures x !in multiset(OpenedBy(s, e))
  {
  }

  lemma {:induction false} AbsentForGood(states: seq<State>, events: seq<Event>, k: nat, n: nat, x: SessionId)
    requires Trace(states, events) && k <= n <= |events| && Absent(states[k], x) && x < states[k].next
    ensures Absent(states[n], x) && x < states[n].next
    decreases n
  {
    hide Step, Absent;
    if k < n {
      AbsentForGood(states, events, k, n - 1, x);
      TraceAt(states, events, n - 1);
      AbsentStays(states[n - 1], events[n - 1], x);
    }
  }

  lemma {:induction false} TraceApart(states: seq<State>, events: seq<Event>, k: nat)
    requires Trace(states, events) && k <= |events| && PermitsKept(states[0]) && SessionsDistinct(states[0])
    ensures PermitsKept(states[k]) && SessionsDistinct(states[k])
  {
    hide Step, PermitsKept, SessionsDistinct;
    if k > 0 {
      TraceApart(states, events, k - 1);
      TraceAt(states, events, k - 1);
      StepApart(states[k - 1], events[k - 1]);
    }
  }

  /**
   A session found stale, one that fails its check, and one in the hand of a call that gives up are
   never seen again: not idle, and in no hand, in any later state.
   */
  lemma ClosedForGood(states: seq<State>, events: seq<Event>, k: nat, n: nat, x: SessionId)
    requires Trace(states, events) && PermitsKept(states[0]) && SessionsDistinct(states[0])
    requires k < n <= |events| && x in Closed(states[k], events[k])
    ensures Absent(states[n], x)
  {
    hide Step, Absent, PermitsKept, SessionsDistinct, Closed;
    TraceApart(states, events, k);
    TraceAt(states, events, k);
    ClosedIsAbsent(states[k], events[k], x);
    NextGrows(states[k], events[k]);
    AbsentForGood(states, events, k + 1, n, x);
  }

  /** A run from an empty pool. */
  ghost predicate RunFrom(max: nat, states: seq<State>, events: seq<Event>) {
    Trace(states, events) && states[0] == State(max, max, [], [], 0)
  }

  lemma RunStartsApart(max: nat)
    ensures PermitsKept(State(max, max, [], [], 0)) && SessionsDistinct(State(max, max, [], [], 0))
  {
  }

  /** A session whose check has failed is never idle or in any hand again; the checkout goes on with its permit and looks for another. */
  lemma FailedForGood(max: nat, states: seq<State>, events: seq<Event>, k: nat, n: nat, i: nat, x: SessionId)
    requires RunFrom(max, states, events) && k < n <= |events|
    requires events[k] == CheckFailed(i) && i < |states[k].tasks| && states[k].tasks[i] == Checking(x)
    ensures Absent(states[n], x)
    ensures i < |states[k + 1].tasks| && states[k + 1].tasks[i] == Popping && states[k + 1].permits == states[k].permits
  {
    hide Step, Absent, PermitsKept, SessionsDistinct;
    RunStartsApart(max);
    assert x in Closed(states[k], events[k]);
    ClosedForGood(states, events, k, n, x);
    TraceAt(states, events, k);
    PopsAgain(states[k], events[k], i);
  }

  /** A session found idle for too long is never seen again either. */
  lemma StaleForGood(max: nat, states: seq<State>, events: seq<Event>, k: nat, n: nat, i: nat)
    requires RunFrom(max, states, events) && k < n <= |events| && events[k] == PopStale(i)
    ensures states[k].idle != [] && Absent(states[n], states[k].idle[|states[k].idle| - 1])
    ensures i < |states[k + 1].tasks| && states[k + 1].tasks[i] == Popping && states[k + 1].permits == states[k].permits
  {
    hide Step, Absent, PermitsKept, SessionsDistinct;
    RunStartsApart(max);
    TraceAt(states, events, k);
    PopsAgain(states[k], events[k], i);
    var x := states[k].idle[|states[k].idle| - 1];
    assert x in Closed(states[k], events[k]);
    ClosedForGood(states, events, k, n, x);
  }

  lemma PopsAgain(s: State, e: Event, i: nat)
    requires Step(s, e).Some? && (e == CheckFailed(i) || e == PopStale(i))
    ensures i < |s.tasks| && (e.PopStale? ==> s.idle != [])
    ensures i < |Step(s, e).value.tasks| && Step(s, e).value.tasks[i] == Popping && Step(s, e).value.permits == s.permits
  {
  }

  /** A session that is held stays with its holder until it is given back to the idle ones, and only then the permit can go back. */
  lemma HeldUntilReturned(max: nat, states: seq<State>, events: seq<Event>, k: nat, i: nat, x: SessionId)
    requires RunFrom(max, states, events) && k < |events| && i < |states[k].tasks| && states[k].tasks[i] == Holding(x)
    ensures i < |states[k + 1].tasks|
    ensures states[k + 1].tasks[i] != Holding(x) ==>
      && events[k] == Return(i) && states[k + 1].idle == states[k].idle + [x]
      && states[k + 1].tasks[i] == Returned && states[k + 1].permits == states[k].permits
  {
    hide Step;
    TraceAt(states, events, k);
    HolderStep(states[k], events[k], i);
  }

  lemma HolderStep(s: State, e: Event, i: nat)
    requires Step(s, e).Some? && i < |s.tasks| && s.tasks[i].Holding?
    ensures i < |Step(s, e).value.tasks|
    ensures Step(s, e).value.tasks[i] != s.tasks[i] ==>
      && e == Return(i) && Step(s, e).value.idle == s.idle + [s.tasks[i].session]
      && Step(s, e).value.tasks[i] == Returned && Step(s, e).value.permits == s.permits
  {
  }

  lemma NextGrows(s: State, e: Event)
    requires Step(s, e).Some?
    ensures s.next <= Step(s, e).value.next
  {
    hide Step, Sessions, Closed;
    SessionsAccounted(s, e);
  }

  // ----- where a checkout has its session from

  /** At step `j` checkout `i` took `x` off the end of the idle sessions. */
  ghost predicate PoppedAt(states: seq<State>, events: seq<Event>, j: nat, i: nat, x: SessionId, check: bool)
    requires |states| == |events| + 1
  {
    j < |events| && events[j] == PopUsed(i, check) && states[j].idle != [] && x == states[j].idle[|states[j].idle| - 1]
  }

  ghost predicate Is(states: seq<State>, i: nat, t: Task, from: nat, to: nat)
    requires to < |states|
  {
    forall m :: from <= m <= to ==> i < |states[m].tasks| && states[m].tasks[i] == t
  }

  /** Since step `j` checkout `i` has had `x` in hand for its check. */
  ghost predicate CheckedSince(states: seq<State>, events: seq<Event>, j: nat, i: nat, x: SessionId, n: nat)
    requires |states| == |events| + 1 && n <= |events|
  {
    j < n && PoppedAt(states, events, j, i, x, true) && Is(states, i, Checking(x), j + 1, n)
  }

  /** How checkout `i` came by `x` at step `k`: it opened it, took it unchecked, or took it and saw it pass its check. */
  ghost predicate CameBy(states: seq<State>, events: seq<Event>, k: nat, i: nat, x: SessionId)
    requires |states| == |events| + 1
  {
    && k < |events|
    && (|| (events[k] == SessionOpened(i) && x == states[k].next)
        || PoppedAt(states, events, k, i, x, false)
        || (events[k] == CheckPassed(i) && exists j :: CheckedSince(states, events, j, i, x, k)))
  }

  lemma TaskFrom(s: State, e: Event, i: nat)
    requires Step(s, e).Some? && i < |Step(s, e).value.tasks|
    requires Step(s, e).value.tasks[i].Checking? || Step(s, e).value.tasks[i].Holding?
    ensures i < |s.tasks|
    ensures var t := Step(s, e).value.tasks[i];
      || t == s.tasks[i]
      || (t.Checking? && e == PopUsed(i, true) && s.idle != [] && t.session == s.idle[|s.idle| - 1])
      || (t.Holding? && e == PopUsed(i, false) && s.idle != [] && t.session == s.idle[|s.idle| - 1])
      || (t.Holding? && e == SessionOpened(i) && t.session == s.next)
      || (t.Holding? && e == CheckPassed(i) && s.tasks[i] == Checking(t.session))
  {
    hide TaskStep;
    if !e.Acquire? && !e.WarmStart? && e.i == i {
      LocalFrom(View(s, i), e);
    }
  }

  lemma LocalFrom(l: Local, e: Event)
    requires TaskStep(l, e).Some?
    ensures var t := TaskStep(l, e).value.task;
      t.Checking? || t.Holding? ==>
      || (t.Checking? && e.PopUsed? && e.check && l.idle != [] && t.session == l.idle[|l.idle| - 1])
      || (t.Holding? && e.PopUsed? && !e.check && l.idle != [] && t.session == l.idle[|l.idle| - 1])
      || (t.Holding? && e.SessionOpened? && t.session == l.next)
      || (t.Holding? && e.CheckPassed? && l.task == Checking(t.session))
  {
  }

  lemma IsLonger(states: seq<State>, i: nat, t: Task, from: nat, to: nat)
    requires 0 < to < |states| && (from < to ==> Is(states, i, t, from, to - 1)) && from <= to
    requires i < |states[to].tasks| && states[to].tasks[i] == t
    ensures Is(states, i, t, from, to)
  {
  }

  lemma {:induction false} CheckingFrom(states: seq<State>, events: seq<Event>, i: nat, n: nat) returns (j: nat)
    requires Trace(states, events) && states[0].tasks == [] && n <= |events|
    requires i < |states[n].tasks| && states[n].tasks[i].Checking?
    ensures CheckedSince(states, events, j, i, states[n].tasks[i].session, n)
    decreases n
  {
    hide Step, Is;
    var t := states[n].tasks[i];
    TraceAt(states, events, n - 1);
    TaskFrom(states[n - 1], events[n - 1], i);
    if t == states[n - 1].tasks[i] {
      j := CheckingFrom(states, events, i, n - 1);
    } else {
      j := n - 1;
    }
    IsLonger(states, i, t, j + 1, n);
  }

  /**
   Every session a checkout holds was opened by that checkout, or taken from the idle ones without a
   check being asked for, or has passed the check it was taken for; and it has been held ever since.
   */
  lemma {:induction false} HeldRightly(states: seq<State>, events: seq<Event>, i: nat, n: nat) returns (k: nat)
    requires Trace(states, events) && states[0].tasks == [] && n <= |events|
    requires i < |states[n].tasks| && states[n].tasks[i].Holding?
    ensures k < n && CameBy(states, events, k, i, states[n].tasks[i].session)
    ensures Is(states, i, states[n].tasks[i], k + 1, n)
    decreases n
  {
    hide Step, Is, CheckedSince;
    var t := states[n].tasks[i];
    TraceAt(states, events, n - 1);
    TaskFrom(states[n - 1], events[n - 1], i);
    if t == states[n - 1].tasks[i] {
      k := HeldRightly(states, events, i, n - 1);
    } else {
      k := n - 1;
      if events[k] == CheckPassed(i) {
        var j := CheckingFrom(states, events, i, k);
      }
    }
    IsLonger(states, i, t, k + 1, n);
  }

  /** A session given back is the next one to be taken. */
  lemma LastBackFirstOut(s: State, i: nat, j: nat, check: bool)
    requires i < |s.tasks| && s.tasks[i].Holding? && j < |s.tasks| && j != i && s.tasks[j].Popping?
    ensures Step(s, Return(i)).Some? && Step(Step(s, Return(i)).value, PopUsed(j, check)).Some?
    ensures var s' := Step(Step(s, Return(i)).value, PopUsed(j, check)).value;
      && s'.idle == s.idle
      && s'.tasks[j] == if check then Checking(s.tasks[i].session) else Holding(s.tasks[i].session)
  {
    var s1 := Step(s, Return(i)).value;
    assert s1.idle[..|s1.idle| - 1] == s.idle;
  }

  // ----- what a warm-up is for

  /** Call `i` is a warm-up asked for this many idle sessions, and aims at no more than the limit. */
  ghost predicate AskedFor(states: seq<State>, events: seq<Event>, j: nat, i: nat, target: nat)
    requires |states| == |events| + 1
  {
    && j < |events| && events[j].WarmStart? && |states[j].tasks| == i
    && target == if events[j].target <= states[j].max then events[j].target else states[j].max
  }

  lemma WarmTaskFrom(s: State, e: Event, i: nat)
    requires Step(s, e).Some? && i < |Step(s, e).value.tasks| && Warming(Step(s, e).value.tasks[i])
    ensures var t := Step(s, e).value.tasks[i];
      || (i < |s.tasks| && Warming(s.tasks[i]) && s.tasks[i].target == t.target)
      || (i == |s.tasks| && e.WarmStart? && t.target == if e.target <= s.max then e.target else s.max)
  {
    hide TaskStep;
    if !e.Acquire? && !e.WarmStart? && e.i == i {
      WarmLocalFrom(View(s, i), e);
    }
  }

  lemma WarmLocalFrom(l: Local, e: Event)
    requires TaskStep(l, e).Some? && Warming(TaskStep(l, e).value.task)
    ensures Warming(l.task) && l.task.target == TaskStep(l, e).value.task.target
  {
  }

  lemma {:induction false} WarmingFrom(states: seq<State>, events: seq<Event>, i: nat, n: nat) returns (j: nat)
    requires Trace(states, events) && states[0].tasks == [] && n <= |events|
    requires i < |states[n].tasks| && Warming(states[n].tasks[i])
    ensures j < n && AskedFor(states, events, j, i, states[n].tasks[i].target)
    decreases n
  {
    hide Step;
    TraceAt(states, events, n - 1);
    WarmTaskFrom(states[n - 1], events[n - 1], i);
    if i < |states[n - 1].tasks| && Warming(states[n - 1].tasks[i]) && states[n - 1].tasks[i].target == states[n].tasks[i].target {
      j := WarmingFrom(states, events, i, n - 1);
    } else {
      j := n - 1;
    }
  }

  /**
   A warm-up opens sessions as long as the idle ones and its own are fewer than asked for, and stops
   exactly when they are as many, the limit being the most that can be asked for.
   */
  lemma WarmUpReaches(states: seq<State>, events: seq<Event>, i: nat, k: nat) returns (j: nat)
    requires Trace(states, events) && states[0].tasks == [] && k < |events| && events[k] == WarmLook(i)
    ensures i < |states[k].tasks| && states[k].tasks[i].WarmLooking?
    ensures AskedFor(states, events, j, i, states[k].tasks[i].target) && i < |states[k + 1].tasks|
    ensures var seen, asked := |states[k].idle| + |Hand(states[k].tasks[i])|, states[k].tasks[i].target;
      && (states[k + 1].tasks[i].WarmDone? <==> seen >= asked)
      && (states[k + 1].tasks[i].WarmWaiting? <==> seen < asked)
      && Hand(states[k + 1].tasks[i]) == Hand(states[k].tasks[i])
  {
    hide Step;
    TraceAt(states, events, k);
    LookStep(states[k], i);
    j := WarmingFrom(states, events, i, k);
  }

  lemma LookStep(s: State, i: nat)
    requires Step(s, WarmLook(i)).Some?
    ensures i < |s.tasks| && s.tasks[i].WarmLooking? && i < |Step(s, WarmLook(i)).value.tasks|
    ensures var t, seen := Step(s, WarmLook(i)).value.tasks[i], |s.idle| + |Hand(s.tasks[i])|;
      && (t.WarmDone? <==> seen >= s.tasks[i].target) && (t.WarmWaiting? <==> seen < s.tasks[i].target)
      && Hand(t) == Hand(s.tasks[i])
  {
  }

  /** What a warm-up has opened becomes idle, all of it, before its permits go back. */
  lemma WarmUpHandsOver(states: seq<State>, events: seq<Event>, i: nat, k: nat)
    requires Trace(states, events) && k < |events| && i < |states[k].tasks| && states[k].tasks[i].WarmDone?
    ensures i < |states[k + 1].tasks|
    ensures states[k + 1].tasks[i] != states[k].tasks[i] ==>
      && events[k] == WarmPush(i) && states[k + 1].idle == states[k].idle + states[k].tasks[i].mine
      && states[k + 1].tasks[i] == WarmReturned(|states[k].tasks[i].mine|) && states[k + 1].permits == states[k].permits
  {
    hide Step;
    TraceAt(states, events, k);
    PushStep(states[k], events[k], i);
  }

  lemma PushStep(s: State, e: Event, i: nat)
    requires Step(s, e).Some? && i < |s.tasks| && s.tasks[i].WarmDone?
    ensures i < |Step(s, e).value.tasks|
    ensures Step(s, e).value.tasks[i] != s.tasks[i] ==>
      && e == WarmPush(i) && Step(s, e).value.idle == s.idle + s.tasks[i].mine
      && Step(s, e).value.tasks[i] == WarmReturned(|s.tasks[i].mine|) && Step(s, e).value.permits == s.permits
  {
  }
}
