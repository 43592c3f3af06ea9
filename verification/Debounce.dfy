// The debounce of route changes: a burst of notifications leads to one update,
// 150 ms after it dies down or once it has lasted for two seconds.
module Debounce {
  import opened Text

  // Times in milliseconds.
  const QUIET: int := 150
  const LONGEST_BURST: int := 2000
  const BOUND: int := 2150

  // When the burst began, when the timer is due, if it is armed, and the due
  // times of the callbacks that were started and wait for the mutex.
  datatype Burst = Burst(first: Option<int>, due: Option<int>, waiting: multiset<int>)

  const CALM := Burst(None, None, multiset{})

  // A notification; the timer running out, which starts a callback; and that
  // callback, due at some time, getting the mutex.
  datatype Event = Bump(at: int) | Expire(at: int) | Callback(at: int, due: int)

  // Whether the event updates.
  predicate Updates(s: Burst, e: Event) {
    e.Callback? || (e.Bump? && s.first.Some? && e.at - s.first.value > LONGEST_BURST)
  }

  // Resetting or stopping the timer does not call back a callback that waits.
  function After(s: Burst, e: Event): (r: Burst) {
    match e
    case Bump(at) =>
      if Updates(s, e) then Burst(None, None, s.waiting)
      else Burst(if s.first.None? then Some(at) else s.first, Some(at + QUIET), s.waiting)
    case Expire(_) =>
      if s.due.None? then s else Burst(s.first, None, s.waiting + multiset{s.due.value})
    case Callback(_, due) => Burst(None, s.due, s.waiting - multiset{due})
  }

  // The two closures over the shared variables, each run under the mutex, and
  // the timer between them.
  class Monitor {
    var firstBurst: Option<int>
    var timer: Option<int>
    var waiting: multiset<int>
    // The times of the updates so far.
    var updates: seq<int>

    constructor ()
      ensures State() == CALM && updates == []
    {
      firstBurst, timer, waiting, updates := None, None, multiset{}, [];
    }

    function State(): (s: Burst)
      reads this
    {
      Burst(firstBurst, timer, waiting)
    }

    method OnBump(now: int)
      modifies this
      ensures State() == After(old(State()), Bump(now))
      ensures updates == old(updates) + if Updates(old(State()), Bump(now)) then [now] else []
    {
      timer := Some(now + QUIET);
      if firstBurst.None? {
        firstBurst := Some(now);
      } else if now - firstBurst.value > LONGEST_BURST {
        firstBurst := None;
        timer := None;
        updates := updates + [now];
      }
    }

    // The runtime starts the callback.
    method OnExpire(now: int)
      requires timer.Some?
      modifies this
      ensures State() == After(old(State()), Expire(now)) && updates == old(updates)
    {
      waiting := waiting + multiset{timer.value};
      timer := None;
    }

    // The callback, once it has the mutex.
    method OnTimer(now: int, due: int)
      requires due in waiting
      modifies this
      ensures State() == After(old(State()), Callback(now, due))
      ensures updates == old(updates) + [now]
    {
      waiting := waiting - multiset{due};
      firstBurst := None;
      updates := updates + [now];
    }
  }

  // ----- Timed runs -----

  // Nothing that is due by now is more than `late` overdue at that time.
  predicate InTime(s: Burst, late: nat, at: int) {
    && (s.due.Some? ==> at <= s.due.value + late)
    && (forall d :: d in s.waiting ==> at <= d + late)
  }

  // The event can come next at this moment: time does not run backwards, the
  // timer runs out when it is due, a callback that runs was started, and no
  // callback comes more than `late` after it was due.
  predicate CanFollow(s: Burst, now: int, late: nat, e: Event) {
    && now <= e.at && InTime(s, late, e.at)
    && (e.Expire? ==> s.due.Some? && s.due.value <= e.at)
    && (e.Callback? ==> e.due in s.waiting)
  }

  // The events happen from this state and this moment on, and nothing more
  // until the time `end`.
  predicate TimedRun(s: Burst, now: int, late: nat, events: seq<Event>, end: int)
    decreases |events|
  {
    if events == [] then now <= end && InTime(s, late, end)
    else CanFollow(s, now, late, events[0]) && TimedRun(After(s, events[0]), events[0].at, late, events[1..], end)
  }

  // Event j of the run updates.
  predicate UpdatesAt(s: Burst, events: seq<Event>, j: nat)
    requires j < |events|
    decreases j
  {
    if j == 0 then Updates(s, events[0]) else UpdatesAt(After(s, events[0]), events[1..], j - 1)
  }

  // An update is on its way: the timer or a waiting callback is due by then.
  ghost predicate OnItsWay(s: Burst, until: int) {
    (s.due.Some? && s.due.value <= until) || exists d :: d in s.waiting && d <= until
  }

  // In a burst an update is on its way within the bound of its beginning. The
  // timer may also be armed with no burst, after a late callback.
  ghost predicate Sound(s: Burst, now: int) {
    s.first.Some? ==> s.first.value <= now && OnItsWay(s, s.first.value + BOUND)
  }

  lemma {:induction false} SoundAfter(s: Burst, now: int, late: nat, e: Event)
    requires Sound(s, now) && CanFollow(s, now, late, e)
    ensures Sound(After(s, e), e.at)
  {
    if e.Expire? && s.first.Some? {
      ExpireKeeps(s, s.first.value + BOUND, e);
    }
  }

  lemma {:induction false} ExpireKeeps(s: Burst, until: int, e: Event)
    requires e.Expire? && s.due.Some? && OnItsWay(s, until)
    ensures OnItsWay(After(s, e), until)
  {
    var r := After(s, e);
    if s.due.value <= until {
      assert s.due.value in r.waiting;
    } else {
      var d :| d in s.waiting && d <= until;
      assert d in r.waiting;
    }
  }

  // While a burst lasts, what is on its way by the bound stays so until an update.
  lemma {:induction false} WayKeeps(s: Burst, until: int, e: Event)
    requires OnItsWay(s, until) && !Updates(s, e)
    requires e.Expire? ==> s.due.Some?
    requires e.Bump? ==> s.first.Some? && s.first.value + BOUND <= until
    ensures OnItsWay(After(s, e), until)
    ensures After(s, e).first == s.first
  {
    if e.Expire? {
      ExpireKeeps(s, until, e);
    } else {
      assert After(s, e).due == Some(e.at + QUIET) && e.at + QUIET <= until;
    }
  }

  // Once a burst began, an update comes within the bound of its beginning.
  lemma {:induction false} BurstEnds(s: Burst, now: int, late: nat, events: seq<Event>, end: int) returns (j: nat)
    requires s.first.Some? && OnItsWay(s, s.first.value + BOUND) && TimedRun(s, now, late, events, end)
    requires s.first.value + BOUND + late < end
    ensures j < |events| && UpdatesAt(s, events, j) && events[j].at <= s.first.value + BOUND + late
    decreases |events|
  {
    var e := events[0];
    if Updates(s, e) {
      j := 0;
    } else {
      WayKeeps(s, s.first.value + BOUND, e);
      var k := BurstEnds(After(s, e), e.at, late, events[1..], end);
      j := k + 1;
    }
  }

  // Every bump is followed by an update at most 2150 ms later, and no later
  // than the timers themselves, however densely further bumps arrive and
  // whatever callbacks were overtaken.
  lemma {:induction false} BumpIsAnswered(s: Burst, now: int, late: nat, events: seq<Event>, end: int, i: nat) returns (j: nat)
    requires Sound(s, now) && TimedRun(s, now, late, events, end)
    requires i < |events| && events[i].Bump? && events[i].at + BOUND + late < end
    ensures i <= j < |events| && UpdatesAt(s, events, j)
    ensures events[i].at <= events[j].at <= events[i].at + BOUND + late
    decreases i
  {
    var e := events[0];
    SoundAfter(s, now, late, e);
    if i > 0 {
      var k := BumpIsAnswered(After(s, e), e.at, late, events[1..], end, i - 1);
      j := k + 1;
    } else if Updates(s, e) {
      j := 0;
    } else {
      var k := BurstEnds(After(s, e), e.at, late, events[1..], end);
      j := k + 1;
      TimesAscend(After(s, e), e.at, late, events[1..], end, k);
    }
  }

  lemma {:induction false} TimesAscend(s: Burst, now: int, late: nat, events: seq<Event>, end: int, k: nat)
    requires TimedRun(s, now, late, events, end) && k < |events|
    ensures now <= events[k].at
    decreases k
  {
    if k > 0 {
      TimesAscend(After(s, events[0]), events[0].at, late, events[1..], end, k - 1);
    }
  }

  // With timers that run on time: from rest, within 2150 ms.
  lemma {:induction false} BumpIsAnsweredInTime(start: int, events: seq<Event>, end: int, i: nat) returns (j: nat)
    requires TimedRun(CALM, start, 0, events, end)
    requires i < |events| && events[i].Bump? && events[i].at + BOUND < end
    ensures i <= j < |events| && UpdatesAt(CALM, events, j)
    ensures events[i].at <= events[j].at <= events[i].at + BOUND
  {
    j := BumpIsAnswered(CALM, start, 0, events, end, i);
  }

  // ----- No sooner than the burst asks for -----

  // No bump comes while a callback waits.
  predicate NoneOvertaken(s: Burst, events: seq<Event>)
    decreases |events|
  {
    events == [] || (!(events[0].Bump? && s.waiting != multiset{}) && NoneOvertaken(After(s, events[0]), events[1..]))
  }

  // What is on its way is due 150 ms after this time at the soonest.
  ghost predicate QuietSince(s: Burst, at: int) {
    (s.due.Some? ==> s.due.value >= at + QUIET) && forall d :: d in s.waiting ==> d >= at + QUIET
  }

  lemma {:induction false} QuietLasts(s: Burst, now: int, late: nat, events: seq<Event>, end: int, at: int, j: nat)
    requires TimedRun(s, now, late, events, end) && NoneOvertaken(s, events)
    requires at <= now && QuietSince(s, at) && forall d :: d in s.waiting ==> d <= now
    requires j < |events| && events[j].Callback?
    ensures events[j].at >= at + QUIET
    decreases j
  {
    if j > 0 {
      QuietLasts(After(s, events[0]), events[0].at, late, events[1..], end, at, j - 1);
    }
  }

  // From any state: as long as no callback is overtaken, the timer updates 150
  // ms after the latest bump at the soonest.
  lemma {:induction false} NoUpdateTooSoon(s: Burst, now: int, late: nat, events: seq<Event>, end: int, i: nat, j: nat)
    requires TimedRun(s, now, late, events, end) && NoneOvertaken(s, events)
    requires i < j < |events| && events[i].Bump? && events[j].Callback?
    ensures events[j].at >= events[i].at + 150
    decreases i
  {
    var e := events[0];
    if i > 0 {
      NoUpdateTooSoon(After(s, e), e.at, late, events[1..], end, i - 1, j - 1);
    } else {
      QuietLasts(After(s, e), e.at, late, events[1..], end, e.at, j - 1);
    }
  }

  function StateAt(s: Burst, events: seq<Event>, j: nat): (r: Burst)
    requires j <= |events|
    decreases j
  {
    if j == 0 then s else StateAt(After(s, events[0]), events[1..], j - 1)
  }

  lemma {:induction false} StateAtNext(s: Burst, events: seq<Event>, j: nat)
    requires j < |events|
    ensures StateAt(s, events, j + 1) == After(StateAt(s, events, j), events[j])
    ensures UpdatesAt(s, events, j) <==> Updates(StateAt(s, events, j), events[j])
    decreases j
  {
    if j > 0 {
      StateAtNext(After(s, events[0]), events[1..], j - 1);
    }
  }

  // An update comes with event k or later, and before event j.
  ghost predicate Answered(events: seq<Event>, k: nat, j: nat)
    requires j <= |events|
  {
    exists m :: k <= m < j && UpdatesAt(CALM, events, m)
  }

  // The first bump that no update has answered before event j.
  ghost predicate FirstUnanswered(events: seq<Event>, i: nat, j: nat)
    requires j <= |events|
  {
    && i < j && events[i].Bump? && !Answered(events, i, j)
    && forall k :: 0 <= k < i && events[k].Bump? ==> Answered(events, k, j)
  }

  lemma {:induction false} AnsweredStep(events: seq<Event>, k: nat, j: nat)
    requires k <= j < |events|
    ensures Answered(events, k, j + 1) <==> Answered(events, k, j) || UpdatesAt(CALM, events, j)
  {
  }

  // A burst begins with the first bump not yet answered.
  lemma {:induction false} BurstBegan(events: seq<Event>, j: nat)
    requires j <= |events|
    ensures
      var first := StateAt(CALM, events, j).first;
      && (first.None? ==> forall k :: 0 <= k < j && events[k].Bump? ==> Answered(events, k, j))
      && (first.Some? ==> exists i: nat :: FirstUnanswered(events, i, j) && events[i].at == first.value)
  {
    if j > 0 {
      var e, first := events[j - 1], StateAt(CALM, events, j - 1).first;
      BurstBegan(events, j - 1);
      StateAtNext(CALM, events, j - 1);
      forall k | 0 <= k < j
        ensures Answered(events, k, j) <==> Answered(events, k, j - 1) || UpdatesAt(CALM, events, j - 1)
      {
        AnsweredStep(events, k, j - 1);
      }
      if !UpdatesAt(CALM, events, j - 1) {
        if first.Some? {
          var i: nat :| FirstUnanswered(events, i, j - 1) && events[i].at == first.value;
          assert FirstUnanswered(events, i, j);
        } else if e.Bump? {
          assert FirstUnanswered(events, j - 1, j);
        }
      }
    }
  }

  // From rest, a bump updates by itself exactly when the first bump not yet
  // answered is more than two seconds old.
  lemma {:induction false} BumpUpdatesWhen(events: seq<Event>, j: nat)
    requires j < |events| && events[j].Bump?
    ensures UpdatesAt(CALM, events, j) <==> exists i: nat :: FirstUnanswered(events, i, j) && events[j].at - events[i].at > 2000
  {
    BurstBegan(events, j);
    StateAtNext(CALM, events, j);
    forall i: nat, k: nat | FirstUnanswered(events, i, j) && FirstUnanswered(events, k, j)
      ensures i == k
    {
    }
  }

  // A callback that was overtaken: it waited while a bump armed the timer
  // again, and leaves it armed with no burst.
  lemma {:induction false} OvertakenCallback()
    ensures
      var events := [Bump(0), Expire(150), Bump(160), Callback(170, 150)];
      && TimedRun(CALM, 0, 20, events, 170)
      && After(After(After(After(CALM, events[0]), events[1]), events[2]), events[3]) == Burst(None, Some(310), multiset{})
  {
    var events := [Bump(0), Expire(150), Bump(160), Callback(170, 150)];
    var s1 := After(CALM, events[0]);
    var s2 := After(s1, events[1]);
    var s3 := After(s2, events[2]);
    var s4 := After(s3, events[3]);
    assert s3.waiting == multiset{150} && s4.waiting == multiset{};
    var e3, e2, e1 := events[3..], events[2..], events[1..];
    assert e3[1..] == [] && e2[1..] == e3 && e1[1..] == e2;
    assert TimedRun(s4, 170, 20, [], 170);
    assert TimedRun(s3, 160, 20, e3, 170);
    assert TimedRun(s2, 150, 20, e2, 170);
    assert TimedRun(s1, 0, 20, e1, 170);
  }
}
