// The kill switch held inside the manager: arming, lifting, and swapping the
// rule set after a repair. Each call is one atomic step.
module Lock {
  import opened Text
  import opened Ip
  import opened Firewall
  import opened FirewallPolicy
  import Stop

  const RELOCK_TRIES: nat := 100
  const START_RETRIES: nat := 6

  // What one call of the arming routine finds: the settings, the hops of the
  // chain, the IPv4 endpoints and the adapters of its two ends, and the answers
  // of the engine to the first and to the second attempt.
  datatype ArmView = ArmView(
    killSwitch: bool,
    optedOut: bool,
    hops: nat,
    rootEndpoint: Option<(IP, nat)>,
    topEndpoint: Option<(IP, nat)>,
    rootLuid: Option<nat>,
    topLuid: Option<nat>,
    apps: seq<string>,
    dns: seq<IP>,
    lans: seq<Net>,
    first: World,
    second: World)

  ghost predicate Complete(v: ArmView) {
    && v.hops >= 2 && v.rootEndpoint.Some? && v.topEndpoint.Some?
    && v.rootLuid.Some? && v.topLuid.Some? && v.apps != []
  }

  // The rule set around the adapters as they are read now.
  function ConfigOf(v: ArmView): (cfg: FirewallConfig)
    requires v.rootEndpoint.Some? && v.topEndpoint.Some? && v.rootLuid.Some? && v.topLuid.Some?
  {
    FirewallConfig(v.rootLuid.value, v.topLuid.value,
      v.rootEndpoint.value.0, v.rootEndpoint.value.1, v.topEndpoint.value.0, v.topEndpoint.value.1,
      v.dns, v.apps, v.lans)
  }

  // The identifiers the rule set is made for: those of the first attempt, or
  // when that one fails, as with a session left over, of the second.
  ghost function AppsOf(v: ArmView, closed: bool): (apps: seq<AppId>)
    requires v.rootEndpoint.Some? && v.topEndpoint.Some? && v.rootLuid.Some? && v.topLuid.Some?
  {
    var w := if closed && CanEnable(ConfigOf(v), v.first) then v.first else v.second;
    if AllKnown(w.identify, v.apps) then AppIds(w.identify, v.apps) else []
  }

  // These are the identifiers the executables have.
  ghost predicate IdentifiedBy(w: World, names: seq<string>, apps: seq<AppId>) {
    AllKnown(w.identify, names) && apps == AppIds(w.identify, names)
  }

  datatype Event = TornDown(hop: string) | StartTried(ok: bool) | AdaptersSeen | SessionClosed | ArmFailed | ArmPassed

  // How a re-arm ends. `try` is the attempt that ended it.
  datatype Outcome = NotOurs | KeptOld | Rearmed(try: nat) | SwitchedOff(try: nat) | GaveUp

  class ChainLock {
    const fw: ChainFirewall
    var on: bool
    var leaf: string
    // The rule set the lock was armed with.
    ghost var armedWith: Option<FirewallConfig>
    // The identifiers of the executables in it.
    ghost var armedFor: seq<AppId>
    ghost var log: seq<Event>

    constructor (fw: ChainFirewall)
      ensures this.fw == fw && !on && log == [] && Valid()
    {
      this.fw := fw;
      on, leaf, armedWith, armedFor, log := false, "", None, [], [];
    }

    // The lock is on only with its rule set in place.
    ghost predicate Valid()
      reads this, fw
    {
      on ==> armedWith.Some? && fw.Enforces(armedWith.value, armedFor)
    }

    twostate predicate Untouched()
      reads this, fw
    {
      on == old(on) && leaf == old(leaf) && armedWith == old(armedWith) && armedFor == old(armedFor) && fw.session == old(fw.session)
    }

    method Arm(name: string, v: ArmView) returns (ok: bool)
      requires Valid()
      modifies this`on, this`leaf, this`armedWith, this`armedFor, fw
      ensures Valid()
      ensures !v.killSwitch || v.optedOut || old(on) || !Complete(v) ==> Untouched()
      ensures ok <==>
        || !v.killSwitch
        || (!v.optedOut && old(on))
        || (!v.optedOut && v.hops >= 2 && v.rootEndpoint.Some? && v.topEndpoint.Some?
            && v.rootLuid.Some? && v.topLuid.Some? && v.apps != [] &&
            ((old(fw.session).None? && CanEnable(ConfigOf(v), v.first)) || CanEnable(ConfigOf(v), v.second)))
      ensures v.killSwitch && !v.optedOut && !old(on) && ok ==>
        && on && leaf == name && Complete(v) && armedWith == Some(ConfigOf(v))
        && armedFor == AppsOf(v, old(fw.session).None?)
        && (IdentifiedBy(v.first, v.apps, armedFor) || IdentifiedBy(v.second, v.apps, armedFor))
      ensures v.killSwitch && !v.optedOut && !old(on) && Complete(v) && !ok ==>
        !on && fw.session == None
    {
      if !v.killSwitch {
        return true;
      }
      if v.optedOut {
        return false;
      }
      if on {
        return true;
      }
      if v.hops < 2 || v.rootEndpoint.None? || v.topEndpoint.None? || v.rootLuid.None? || v.topLuid.None? {
        return false;
      }
      if |v.apps| == 0 {
        return false;
      }
      var cfg := ConfigOf(v);
      ghost var apps := AppsOf(v, fw.session.None?);
      var error := fw.Enable(Some(cfg), v.first);
      if error.Some? {
        // A session left over is closed, and the attempt repeated once.
        fw.Disable();
        error := fw.Enable(Some(cfg), v.second);
      }
      if error.Some? {
        return false;
      }
      on := true;
      leaf := name;
      armedWith := Some(cfg);
      armedFor := apps;
      return true;
    }

    method Disarm() returns (was: bool)
      modifies this, fw
      ensures Valid() && !on
      ensures was == old(on)
      ensures if was then fw.session == None else fw.session == old(fw.session)
      ensures log == old(log) + if was then [SessionClosed] else []
    {
      was := on;
      on := false;
      leaf := "";
      if !was {
        return;
      }
      fw.Disable();
      log := log + [SessionClosed];
    }

    // Holds the old rule set until both ends of the chain have an adapter.
    // `ready` answers the k-th look at them.
    method AwaitAdapters(ready: nat -> bool) returns (seen: bool)
      modifies this`log
      ensures seen <==> exists k :: 1 <= k <= RELOCK_TRIES && ready(k)
      ensures log == old(log) + if seen then [AdaptersSeen] else []
    {
      for try := 1 to RELOCK_TRIES + 1
        invariant forall k :: 1 <= k < try ==> !ready(k)
        invariant log == old(log)
      {
        if ready(try) {
          log := log + [AdaptersSeen];
          return true;
        }
      }
      return false;
    }

    // Arms again, up to a hundred times, on the k-th view of the system.
    method TryArming(name: string, views: nat -> ArmView) returns (r: Outcome)
      requires Valid() && !on && fw.session.None?
      modifies this, fw
      ensures Valid() && Settled(r, name, views)
      ensures log == old(log) + ArmEvents(r)
    {
      for try := 1 to RELOCK_TRIES + 1
        invariant Valid() && !on && fw.session.None?
        invariant forall k :: 1 <= k < try ==> ArmFails(views(k))
        invariant log == old(log) + seq(try - 1, _ => ArmFailed)
      {
        var v := views(try);
        var ok := Arm(name, v);
        if ok {
          log := log + [ArmPassed];
          return if v.killSwitch then Rearmed(try) else SwitchedOff(try);
        }
        log := log + [ArmFailed];
        assert seq(try - 1, _ => ArmFailed) + [ArmFailed] == seq(try, _ => ArmFailed);
      }
      return GaveUp;
    }

    // The state each outcome of the arming attempts leaves behind.
    ghost predicate Settled(r: Outcome, name: string, views: nat -> ArmView)
      reads this, fw
    {
      match r
      case Rearmed(try) =>
        && 1 <= try <= RELOCK_TRIES && on && leaf == name
        && Complete(views(try)) && fw.Enforces(ConfigOf(views(try)), AppsOf(views(try), true))
        && views(try).killSwitch
        && forall k :: 1 <= k < try ==> ArmFails(views(k))
      case SwitchedOff(try) =>
        && 1 <= try <= RELOCK_TRIES && !on && fw.session.None? && !views(try).killSwitch
        && forall k :: 1 <= k < try ==> ArmFails(views(k))
      case GaveUp =>
        && !on && fw.session.None?
        && forall k :: 1 <= k <= RELOCK_TRIES ==> ArmFails(views(k))
      case _ => false
    }

    // chainRearmLockAfterRepair
    method Rearm(name: string, optedOut: bool, ready: nat -> bool, views: nat -> ArmView) returns (r: Outcome)
      requires Valid()
      modifies this, fw
      ensures Valid()
      ensures r.NotOurs? <==> optedOut || !old(on)
      ensures r.KeptOld? <==> !optedOut && old(on) && forall k :: 1 <= k <= RELOCK_TRIES ==> !ready(k)
      ensures r.NotOurs? || r.KeptOld? ==> Untouched()
      ensures !r.NotOurs? && !r.KeptOld? ==> Settled(r, name, views)
      ensures log == old(log) + RearmEvents(r)
    {
      if optedOut {
        return NotOurs;
      }
      if !on {
        return NotOurs;
      }
      var seen := AwaitAdapters(ready);
      if !seen {
        return KeptOld;
      }
      ghost var before := old(log);
      r := Swap(name, views);
      SwapEvents(before, r);
    }

    // Closes the old session and arms anew.
    method Swap(name: string, views: nat -> ArmView) returns (r: Outcome)
      requires Valid() && on
      modifies this, fw
      ensures Valid() && Settled(r, name, views)
      ensures log == old(log) + ([SessionClosed] + ArmEvents(r))
    {
      var _ := Disarm();
      assert log == old(log) + [SessionClosed];
      r := TryArming(name, views);
      ConcatAssoc(old(log), [SessionClosed], ArmEvents(r));
    }

    // Stops the hops from the top down.
    method TearDown(hops: seq<string>)
      modifies this`log
      ensures log == old(log) + TopDown(hops)
    {
      for i := |hops| downto 0
        invariant log == old(log) + TopDown(hops)[..|hops| - i]
      {
        log := log + [TornDown(hops[i])];
      }
    }

    // Drops the chain and raises it again; `starts` says which tries succeed.
    method RaiseAgain(hops: seq<string>, starts: nat -> bool) returns (raised: bool, ghost es: seq<Event>)
      modifies this`log
      ensures raised <==> exists k :: 1 <= k <= START_RETRIES && starts(k)
      ensures log == old(log) + es && NoClose(es)
      ensures raised ==> es != [] && es[|es| - 1] == StartTried(true)
    {
      TopDownKeeps(hops);
      TearDown(hops);
      es := TopDown(hops);
      for attempt := 1 to START_RETRIES + 1
        invariant forall k :: 1 <= k < attempt ==> !starts(k)
        invariant log == old(log) + es && NoClose(es)
      {
        var ok := starts(attempt);
        log := log + [StartTried(ok)];
        es := es + [StartTried(ok)];
        if ok {
          return true, es;
        }
        if attempt == START_RETRIES {
          break;
        }
        TearDown(hops);
        es := es + TopDown(hops);
      }
      return false, es;
    }

    // chainRepair. The answer is how the re-arm ended, or None when no try to
    // raise the chain succeeded.
    method Repair(name: string, hops: seq<string>, starts: nat -> bool, optedOut: bool, ready: nat -> bool, views: nat -> ArmView)
      returns (r: Option<Outcome>, ghost es: seq<Event>)
      requires Valid()
      modifies this, fw
      ensures Valid()
      ensures r.None? <==> forall k :: 1 <= k <= START_RETRIES ==> !starts(k)
      ensures r.None? || r.value.NotOurs? || r.value.KeptOld? ==> Untouched()
      ensures r.Some? && !r.value.NotOurs? && !r.value.KeptOld? ==> Settled(r.value, name, views)
      ensures log == old(log) + es && ClosesLate(es)
    {
      var raised;
      raised, es := RaiseAgain(hops, starts);
      if !raised {
        return None, es;
      }
      var outcome := Rearm(name, optedOut, ready, views);
      SwapIsLast(es, outcome);
      return Some(outcome), es + RearmEvents(outcome);
    }
  }

  function TopDown(hops: seq<string>): (es: seq<Event>) {
    var order := Stop.TopFirst(hops);
    seq(|order|, i requires 0 <= i < |order| => TornDown(order[i]))
  }

  ghost predicate NoClose(es: seq<Event>) {
    forall i :: 0 <= i < |es| ==> !es[i].SessionClosed?
  }

  // The session is closed only right after both adapters were seen, after a
  // start of the whole chain succeeded.
  ghost predicate ClosesLate(es: seq<Event>) {
    forall i :: 0 <= i < |es| && es[i].SessionClosed? ==>
      i >= 2 && es[i - 1].AdaptersSeen? && es[i - 2] == StartTried(true)
  }

  lemma {:induction false} TopDownKeeps(hops: seq<string>)
    ensures NoClose(TopDown(hops))
  {
  }

  lemma {:induction false} ArmEventsKeep(r: Outcome)
    ensures NoClose(ArmEvents(r))
  {
  }

  lemma {:induction false} SwapIsLast(es: seq<Event>, r: Outcome)
    requires NoClose(es) && es != [] && es[|es| - 1] == StartTried(true)
    ensures ClosesLate(es + RearmEvents(r))
  {
    ArmEventsKeep(r);
    var tail := RearmEvents(r);
    assert tail != [] ==> tail[0] == AdaptersSeen && tail[1] == SessionClosed;
    forall i | 2 <= i < |tail|
      ensures !tail[i].SessionClosed?
    {
      assert tail[i] == ArmEvents(r)[i - 2];
    }
    var all := es + tail;
    forall i | 0 <= i < |all| && all[i].SessionClosed?
      ensures i >= 2 && all[i - 1].AdaptersSeen? && all[i - 2] == StartTried(true)
    {
      assert all[i] == tail[i - |es|];
    }
  }

  // An attempt of Arm with the lock off and no session open fails.
  predicate ArmFails(v: ArmView) {
    && v.killSwitch
    && (v.optedOut
        || v.hops < 2 || v.rootEndpoint.None? || v.topEndpoint.None? || v.rootLuid.None? || v.topLuid.None? || |v.apps| == 0
        || (!CanEnable(ConfigOf(v), v.first) && !CanEnable(ConfigOf(v), v.second)))
  }

  function ArmEvents(r: Outcome): (es: seq<Event>) {
    match r
    case Rearmed(try) => seq(if try == 0 then 0 else try - 1, _ => ArmFailed) + [ArmPassed]
    case SwitchedOff(try) => seq(if try == 0 then 0 else try - 1, _ => ArmFailed) + [ArmPassed]
    case GaveUp => seq(RELOCK_TRIES, _ => ArmFailed)
    case _ => []
  }

  function RearmEvents(r: Outcome): (es: seq<Event>) {
    if r.NotOurs? || r.KeptOld? then [] else [AdaptersSeen, SessionClosed] + ArmEvents(r)
  }

  // What a session around the view lets through, in the view's own terms: all
  // but DNS through the top adapter, DNS to its IPv4 resolvers only through the
  // top adapter, and otherwise the two endpoints, the top one through the root
  // adapter alone, and what never leaves the local network.
  lemma {:induction false} ArmedAround(fw: ChainFirewall, v: ArmView, apps: seq<AppId>, p: Packet)
    requires Complete(v) && fw.Enforces(ConfigOf(v), apps) && PacketOk(p)
    ensures
      var toRoot := ToEndpoint(apps, v.rootEndpoint.value.0, v.rootEndpoint.value.1, p);
      var toTop := ToEndpoint(apps, v.topEndpoint.value.0, v.topEndpoint.value.1, p) && p.luid == v.rootLuid.value;
      var passes := Verdict(fw.session.value, p) == Permit;
      && (!IsDns(p) && p.luid == v.topLuid.value ==> passes)
      && (!IsDns(p) && p.luid != v.topLuid.value ==> (passes <==> toRoot || toTop || p.loopback || IsDhcp(p) || InLans(v.lans, p)))
      && (IsDns(p) ==> (passes <==> toRoot || toTop || (IsV4(p) && p.luid == v.topLuid.value && ToServer(v.dns, p))))
  {
    EnabledEnforcesPolicy(fw, ConfigOf(v), apps, p);
  }

  lemma {:induction false} SwapEvents(log: seq<Event>, r: Outcome)
    requires !r.NotOurs? && !r.KeptOld?
    ensures log + [AdaptersSeen] + ([SessionClosed] + ArmEvents(r)) == log + RearmEvents(r)
  {
    var es := ArmEvents(r);
    assert log + [AdaptersSeen] + ([SessionClosed] + es) == log + ([AdaptersSeen, SessionClosed] + es);
  }

  // A lock that is on enforces the policy around the adapters it was armed with.
  lemma {:induction false} LockedPolicy(lock: ChainLock, p: Packet)
    requires lock.Valid() && lock.on && PacketOk(p)
    ensures Verdict(lock.fw.session.value, p) == Permit <==> Allowed(lock.armedWith.value, lock.armedFor, p)
  {
    EnabledEnforcesPolicy(lock.fw, lock.armedWith.value, lock.armedFor, p);
  }
}
