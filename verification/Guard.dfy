// The guard process holds the kill switch: it follows the two adapters when
// the chain is rebuilt, and lets go on request, on timeout, on a wait error or
// when the chain is down with nobody left to repair it.
module Guard {
  import opened Text
  import opened Firewall
  import opened FirewallPolicy

  datatype Wait = TimedOut | Signalled | WaitFailed

  // What one turn of the loop observes. The three clock readings are those of
  // the deadline check, of the manager check and of the orphan check.
  datatype Poll = Poll(
    wait: Wait,
    deadlineAt: int,
    alive: bool,
    managerAt: int,
    hop1: Option<nat>,
    hop2: Option<nat>,
    orphanAt: int,
    world: World)

  datatype Reason = ByWaitError | ByStop | ByTimeout | ByOrphan

  // The parameters of the hold. Times are in seconds.
  datatype Terms = Terms(deadline: Option<int>, managerPid: int, grace: int)

  datatype Hold =
    | Holding(cfg: FirewallConfig, apps: seq<AppId>, armed: bool, goneAt: Option<int>, reloads: nat)
    | Removed(reason: Reason)

  predicate Expired(t: Terms, p: Poll) {
    t.deadline.Some? && p.deadlineAt > t.deadline.value
  }

  function GoneAt(t: Terms, goneAt: Option<int>, p: Poll): (r: Option<int>) {
    if t.managerPid <= 0 then goneAt
    else if p.alive then None
    else if goneAt.None? then Some(p.managerAt)
    else goneAt
  }

  function Reload(s: Hold, w: World): (r: Hold)
    requires s.Holding?
  {
    if CanEnable(s.cfg, w) then
      s.(armed := true, apps := AppIds(w.identify, s.cfg.allowedApps), reloads := s.reloads + 1)
    else s.(armed := false)
  }

  // A turn whose wait timed out before the deadline.
  function Turn(t: Terms, s: Hold, p: Poll): (r: Hold)
    requires s.Holding?
  {
    if !s.armed then Reload(s, p.world)
    else if p.hop1.None? || p.hop2.None? then
      if s.goneAt.Some? && p.orphanAt - s.goneAt.value >= t.grace then Removed(ByOrphan) else s
    else if p.hop1.value == s.cfg.hop1 && p.hop2.value == s.cfg.hop2 then s
    else Reload(s.(cfg := s.cfg.(hop1 := p.hop1.value, hop2 := p.hop2.value)), p.world)
  }

  function Step(t: Terms, s: Hold, p: Poll): (r: Hold)
    requires s.Holding?
  {
    if p.wait.WaitFailed? then Removed(ByWaitError)
    else if p.wait.Signalled? then Removed(ByStop)
    else if Expired(t, p) then Removed(ByTimeout)
    else Turn(t, s.(goneAt := GoneAt(t, s.goneAt, p)), p)
  }

  function Run(t: Terms, s: Hold, polls: seq<Poll>): (r: Hold) {
    if polls == [] then s
    else
      var before := Run(t, s, polls[..|polls| - 1]);
      if before.Removed? then before else Step(t, before, polls[|polls| - 1])
  }

  function Begin(cfg: FirewallConfig, apps: seq<AppId>): (s: Hold) {
    Holding(cfg, apps, true, None, 0)
  }

  // The session is open exactly while armed, around the adapters of cfg.
  ghost predicate Agrees(fw: ChainFirewall, s: Hold)
    reads fw
  {
    && (s.Removed? ==> fw.session.None?)
    && (s.Holding? && s.armed ==> fw.Enforces(s.cfg, s.apps))
    && (s.Holding? && !s.armed ==> fw.session.None?)
  }

  // A hop is missing, or both adapters are those of the configuration.
  predicate Unmoved(s: Hold, p: Poll)
    requires s.Holding?
  {
    p.hop1.None? || p.hop2.None? || (p.hop1 == Some(s.cfg.hop1) && p.hop2 == Some(s.cfg.hop2))
  }

  // One turn of the loop.
  method PollOnce(fw: ChainFirewall, t: Terms, s: Hold, p: Poll) returns (r: Hold)
    requires s.Holding? && Agrees(fw, s)
    modifies fw
    ensures r == Step(t, s, p)
    ensures Agrees(fw, r)
    ensures r.Holding? && s.armed && Unmoved(s, p) ==> fw.session == old(fw.session)
  {
    if p.wait.WaitFailed? {
      fw.Disable();
      return Removed(ByWaitError);
    }
    if p.wait.Signalled? {
      fw.Disable();
      return Removed(ByStop);
    }
    if t.deadline.Some? && p.deadlineAt > t.deadline.value {
      fw.Disable();
      return Removed(ByTimeout);
    }
    var goneAt := s.goneAt;
    if t.managerPid > 0 {
      if p.alive {
        goneAt := None;
      } else if goneAt.None? {
        goneAt := Some(p.managerAt);
      }
    }
    if !s.armed {
      r := EnableAgain(fw, s.(goneAt := goneAt), p.world);
      return;
    }
    if p.hop1.None? || p.hop2.None? {
      if goneAt.Some? && p.orphanAt - goneAt.value >= t.grace {
        fw.Disable();
        return Removed(ByOrphan);
      }
      return s.(goneAt := goneAt);
    }
    if p.hop1.value == s.cfg.hop1 && p.hop2.value == s.cfg.hop2 {
      return s.(goneAt := goneAt);
    }
    var cfg := s.cfg.(hop1 := p.hop1.value, hop2 := p.hop2.value);
    fw.Disable();
    r := EnableAgain(fw, s.(goneAt := goneAt, cfg := cfg), p.world);
  }

  method EnableAgain(fw: ChainFirewall, s: Hold, w: World) returns (r: Hold)
    requires s.Holding? && fw.session.None?
    modifies fw
    ensures r == Reload(s, w)
    ensures Agrees(fw, r)
  {
    var error := fw.Enable(Some(s.cfg), w);
    if error.Some? {
      return s.(armed := false);
    }
    return s.(armed := true, apps := AppIds(w.identify, s.cfg.allowedApps), reloads := s.reloads + 1);
  }

  // The loop over any finite run of polls. `Holding` is the state at the loop
  // head, `Removed` the reason of the return.
  method HoldKillSwitch(fw: ChainFirewall, cfg: FirewallConfig, apps: seq<AppId>, t: Terms, polls: seq<Poll>) returns (r: Hold)
    requires fw.Enforces(cfg, apps)
    modifies fw
    ensures r == Run(t, Begin(cfg, apps), polls)
    ensures Agrees(fw, r)
  {
    r := Begin(cfg, apps);
    for i := 0 to |polls|
      invariant r.Holding? && r == Run(t, Begin(cfg, apps), polls[..i])
      invariant Agrees(fw, r)
    {
      r := PollOnce(fw, t, r, polls[i]);
      assert polls[..i + 1][..i] == polls[..i];
      if r.Removed? {
        RunPrefix(t, Begin(cfg, apps), polls, i + 1);
        return;
      }
    }
    assert polls[..|polls|] == polls;
  }

  // Once removed, a run stays removed.
  lemma {:induction false} RunPrefix(t: Terms, s: Hold, polls: seq<Poll>, n: nat)
    requires n <= |polls|
    ensures Run(t, s, polls[..n]).Removed? ==> Run(t, s, polls) == Run(t, s, polls[..n])
  {
    if n < |polls| {
      RunPrefix(t, s, polls[..|polls| - 1], n);
      assert polls[..|polls| - 1][..n] == polls[..n];
    } else {
      assert polls[..n] == polls;
    }
  }

  // While armed, what leaves the machine is what the policy around the current
  // configuration allows.
  lemma {:induction false} HeldPolicy(fw: ChainFirewall, s: Hold, p: Packet)
    requires Agrees(fw, s) && s.Holding? && s.armed && PacketOk(p)
    ensures Verdict(fw.session.value, p) == Permit <==> Allowed(s.cfg, s.apps, p)
  {
    EnabledEnforcesPolicy(fw, s.cfg, s.apps, p);
  }

  // ----- When the guard gives the machine back on its own -----

  // The manager was seen dead by every poll from i on.
  predicate DeadFrom(polls: seq<Poll>, i: nat) {
    i < |polls| && forall k :: i <= k < |polls| ==> !polls[k].alive
  }

  predicate ClockForward(polls: seq<Poll>) {
    forall i, j :: 0 <= i <= j < |polls| ==> polls[i].managerAt <= polls[j].managerAt
  }

  // The unbroken dead stretch the run ends with begins at poll i, at this time.
  ghost predicate StretchBegins(polls: seq<Poll>, i: nat, at: int) {
    && DeadFrom(polls, i) && polls[i].managerAt == at
    && (i > 0 ==> polls[i - 1].alive)
  }

  lemma {:induction false} GoneSince(t: Terms, cfg: FirewallConfig, apps: seq<AppId>, polls: seq<Poll>)
    requires Run(t, Begin(cfg, apps), polls).Holding?
    ensures
      var s := Run(t, Begin(cfg, apps), polls);
      && (s.goneAt.None? ==> t.managerPid <= 0 || polls == [] || polls[|polls| - 1].alive)
      && (s.goneAt.Some? ==> t.managerPid > 0 && polls != [] && exists i: nat :: StretchBegins(polls, i, s.goneAt.value))
  {
    if polls != [] {
      var front, p := polls[..|polls| - 1], polls[|polls| - 1];
      assert polls == front + [p];
      GoneSince(t, cfg, apps, front);
      GoneStep(t, Run(t, Begin(cfg, apps), front).goneAt, front, p);
    }
  }

  lemma {:induction false} GoneStep(t: Terms, goneAt: Option<int>, front: seq<Poll>, p: Poll)
    requires goneAt.None? ==> t.managerPid <= 0 || front == [] || front[|front| - 1].alive
    requires goneAt.Some? ==> t.managerPid > 0 && front != [] && exists i: nat :: StretchBegins(front, i, goneAt.value)
    ensures
      var g := GoneAt(t, goneAt, p);
      && (g.None? ==> t.managerPid <= 0 || p.alive)
      && (g.Some? ==> t.managerPid > 0 && exists i: nat :: StretchBegins(front + [p], i, g.value))
  {
    if t.managerPid > 0 && !p.alive {
      if goneAt.None? {
        assert StretchBegins(front + [p], |front|, p.managerAt);
      } else {
        var i: nat :| StretchBegins(front, i, goneAt.value);
        assert StretchBegins(front + [p], i, goneAt.value);
      }
    }
  }

  // The manager was seen dead by every poll of a stretch that covers the grace span.
  ghost predicate DeadForGrace(t: Terms, polls: seq<Poll>, now: int) {
    exists i: nat :: DeadFrom(polls, i) && now - polls[i].managerAt >= t.grace
  }

  lemma {:induction false} GoneForGrace(t: Terms, goneAt: Option<int>, front: seq<Poll>, p: Poll)
    requires goneAt.None? ==> t.managerPid <= 0 || front == [] || front[|front| - 1].alive
    requires goneAt.Some? ==> t.managerPid > 0 && front != [] && exists i: nat :: StretchBegins(front, i, goneAt.value)
    requires ClockForward(front + [p])
    ensures
      var g := GoneAt(t, goneAt, p);
      g.Some? && p.orphanAt - g.value >= t.grace <==> t.managerPid > 0 && DeadForGrace(t, front + [p], p.orphanAt)
  {
    GoneStep(t, goneAt, front, p);
    var polls := front + [p];
    var g := GoneAt(t, goneAt, p);
    if g.Some? {
      var i: nat :| StretchBegins(polls, i, g.value);
      forall k: nat | DeadFrom(polls, k)
        ensures polls[i].managerAt <= polls[k].managerAt
      {
        assert i > 0 ==> polls[i - 1].alive;
      }
    } else {
      assert polls[|front|] == p;
    }
  }

  // The orphan exit, exactly: the run was holding with the filters in place, a
  // hop is missing, and the manager was dead for the grace span.
  lemma {:induction false} OrphanExit(t: Terms, cfg: FirewallConfig, apps: seq<AppId>, front: seq<Poll>, p: Poll)
    requires ClockForward(front + [p])
    requires Run(t, Begin(cfg, apps), front).Holding?
    ensures
      Run(t, Begin(cfg, apps), front + [p]) == Removed(ByOrphan) <==>
      && p.wait.TimedOut? && !Expired(t, p) && Run(t, Begin(cfg, apps), front).armed
      && (p.hop1.None? || p.hop2.None?)
      && t.managerPid > 0 && DeadForGrace(t, front + [p], p.orphanAt)
  {
    GoneSince(t, cfg, apps, front);
    GoneForGrace(t, Run(t, Begin(cfg, apps), front).goneAt, front, p);
    RunSnoc(t, Begin(cfg, apps), front, p);
  }

  // The three other exits, exactly, by what the poll observes.
  lemma {:induction false} OtherExits(t: Terms, cfg: FirewallConfig, apps: seq<AppId>, front: seq<Poll>, p: Poll)
    requires Run(t, Begin(cfg, apps), front).Holding?
    ensures
      var r := Run(t, Begin(cfg, apps), front + [p]);
      && (r == Removed(ByStop) <==> p.wait.Signalled?)
      && (r == Removed(ByWaitError) <==> p.wait.WaitFailed?)
      && (r == Removed(ByTimeout) <==> p.wait.TimedOut? && t.deadline.Some? && p.deadlineAt > t.deadline.value)
  {
    RunSnoc(t, Begin(cfg, apps), front, p);
  }

  // In every other case the guard holds on.
  lemma {:induction false} HoldsOn(t: Terms, cfg: FirewallConfig, apps: seq<AppId>, front: seq<Poll>, p: Poll)
    requires ClockForward(front + [p])
    requires Run(t, Begin(cfg, apps), front).Holding?
    ensures
      Run(t, Begin(cfg, apps), front + [p]).Holding? <==>
      && p.wait.TimedOut? && !(t.deadline.Some? && p.deadlineAt > t.deadline.value)
      && !(Run(t, Begin(cfg, apps), front).armed && (p.hop1.None? || p.hop2.None?)
           && t.managerPid > 0 && DeadForGrace(t, front + [p], p.orphanAt))
  {
    OtherExits(t, cfg, apps, front, p);
    OrphanExit(t, cfg, apps, front, p);
    var r := Run(t, Begin(cfg, apps), front + [p]);
    assert r.Removed? ==> r == Removed(ByStop) || r == Removed(ByWaitError) || r == Removed(ByTimeout) || r == Removed(ByOrphan);
  }

  // The rebuilds are counted: one for every poll that leaves the guard armed and
  // found it unarmed, or around other adapters.
  lemma {:induction false} ReloadsCounted(t: Terms, cfg: FirewallConfig, apps: seq<AppId>, front: seq<Poll>, p: Poll)
    requires Run(t, Begin(cfg, apps), front).Holding? && Run(t, Begin(cfg, apps), front + [p]).Holding?
    ensures
      var s := Run(t, Begin(cfg, apps), front);
      var r := Run(t, Begin(cfg, apps), front + [p]);
      r.reloads == s.reloads + if r.armed && (!s.armed || r.cfg != s.cfg) then 1 else 0
  {
    RunSnoc(t, Begin(cfg, apps), front, p);
  }

  // While a hop is missing an armed guard that holds on touches nothing.
  lemma {:induction false} UntouchedWhileDown(t: Terms, cfg: FirewallConfig, apps: seq<AppId>, front: seq<Poll>, p: Poll)
    requires Run(t, Begin(cfg, apps), front).Holding? && Run(t, Begin(cfg, apps), front + [p]).Holding?
    requires Run(t, Begin(cfg, apps), front).armed && (p.hop1.None? || p.hop2.None?)
    ensures
      var s := Run(t, Begin(cfg, apps), front);
      var r := Run(t, Begin(cfg, apps), front + [p]);
      r.armed && r.cfg == s.cfg && r.apps == s.apps && r.reloads == s.reloads
  {
    RunSnoc(t, Begin(cfg, apps), front, p);
  }

  lemma {:induction false} RunSnoc(t: Terms, s: Hold, front: seq<Poll>, p: Poll)
    requires Run(t, s, front).Holding?
    ensures Run(t, s, front + [p]) == Step(t, Run(t, s, front), p)
  {
    assert (front + [p])[..|front|] == front;
  }

  // With no manager to watch the guard never lets go by itself.
  lemma {:induction false} NeverOrphanWithoutManager(t: Terms, cfg: FirewallConfig, apps: seq<AppId>, polls: seq<Poll>)
    requires t.managerPid <= 0
    ensures Run(t, Begin(cfg, apps), polls) != Removed(ByOrphan)
    decreases |polls|
  {
    if polls != [] {
      NeverOrphanWithoutManager(t, cfg, apps, polls[..|polls| - 1]);
      if Run(t, Begin(cfg, apps), polls[..|polls| - 1]).Holding? {
        GoneSince(t, cfg, apps, polls[..|polls| - 1]);
      }
    }
  }

  // ----- Following a rebuilt chain -----

  // Both adapters are there with these LUIDs, nobody asks the guard to stop,
  // and the engine takes the filters of the configuration it is given.
  ghost predicate Steady(t: Terms, p: Poll, hop1: nat, hop2: nat) {
    && p.wait.TimedOut? && !Expired(t, p)
    && p.hop1 == Some(hop1) && p.hop2 == Some(hop2)
    && forall cfg :: ConfigOk(cfg) && DnsOk(cfg) ==> Lets(p.world, cfg)
  }

  ghost predicate Sound(s: Hold) {
    s.Holding? && ConfigOk(s.cfg) && DnsOk(s.cfg)
  }

  lemma {:induction false} SteadyStep(t: Terms, s: Hold, p: Poll, hop1: nat, hop2: nat)
    requires Sound(s) && Steady(t, p, hop1, hop2) && hop1 != 0 && hop2 != 0
    ensures
      var r := Step(t, s, p);
      && Sound(r) && r.armed
      && (s.armed ==> r.cfg == s.cfg.(hop1 := hop1, hop2 := hop2))
      && (!s.armed ==> r.cfg == s.cfg)
  {}

  // However the run stood before, from the second steady poll on the filters
  // in place are those around the current adapters.
  lemma {:induction false} CurrentWithinTwoPolls(t: Terms, s: Hold, polls: seq<Poll>, hop1: nat, hop2: nat)
    requires Sound(s) && hop1 != 0 && hop2 != 0
    requires forall p :: p in polls ==> Steady(t, p, hop1, hop2)
    ensures
      var r := Run(t, s, polls);
      && Sound(r)
      && (|polls| >= 1 ==> r.armed)
      && (|polls| >= 2 ==> r.cfg == s.cfg.(hop1 := hop1, hop2 := hop2))
      && (|polls| >= 1 && s.armed ==> r.cfg == s.cfg.(hop1 := hop1, hop2 := hop2))
      && (polls == [] || !s.armed ==> r.cfg == s.cfg || r.cfg == s.cfg.(hop1 := hop1, hop2 := hop2))
  {
    if polls != [] {
      CurrentWithinTwoPolls(t, s, polls[..|polls| - 1], hop1, hop2);
      SteadyStep(t, Run(t, s, polls[..|polls| - 1]), polls[|polls| - 1], hop1, hop2);
    }
  }

  // An adapter that is found has a LUID other than 0.
  ghost predicate RealLuids(polls: seq<Poll>) {
    forall p :: p in polls ==> p.hop1 != Some(0) && p.hop2 != Some(0)
  }

  lemma {:induction false} StaysSound(t: Terms, cfg: FirewallConfig, apps: seq<AppId>, polls: seq<Poll>)
    requires ConfigOk(cfg) && DnsOk(cfg) && RealLuids(polls)
    ensures Run(t, Begin(cfg, apps), polls).Removed? || Sound(Run(t, Begin(cfg, apps), polls))
  {
    if polls != [] {
      StaysSound(t, cfg, apps, polls[..|polls| - 1]);
    }
  }

  lemma {:induction false} RunAppend(t: Terms, s: Hold, before: seq<Poll>, after: seq<Poll>)
    ensures Run(t, s, before + after) == Run(t, Run(t, s, before), after)
    decreases |after|
  {
    if after == [] {
      assert before + after == before;
    } else {
      RunAppend(t, s, before, after[..|after| - 1]);
      assert (before + after)[..|before + after| - 1] == before + after[..|after| - 1];
    }
  }

  // Over whole runs: whatever happened before, as long as the guard still
  // holds, two steady polls put the filters around the current adapters.
  lemma {:induction false} FollowsTheChain(t: Terms, cfg: FirewallConfig, apps: seq<AppId>, before: seq<Poll>, steady: seq<Poll>, hop1: nat, hop2: nat)
    requires ConfigOk(cfg) && DnsOk(cfg) && RealLuids(before) && hop1 != 0 && hop2 != 0
    requires Run(t, Begin(cfg, apps), before).Holding?
    requires |steady| >= 2 && forall p :: p in steady ==> Steady(t, p, hop1, hop2)
    ensures
      var r := Run(t, Begin(cfg, apps), before + steady);
      r.Holding? && r.armed && r.cfg.hop1 == hop1 && r.cfg.hop2 == hop2
  {
    StaysSound(t, cfg, apps, before);
    RunAppend(t, Begin(cfg, apps), before, steady);
    CurrentWithinTwoPolls(t, Run(t, Begin(cfg, apps), before), steady, hop1, hop2);
  }
}
