// Starting a tunnel: every hop underneath is raised first, deepest first, with
// retries, and each is seen started with a handshake before the next goes up.
module Start {
  import opened Text
  import opened Forest
  import opened Stop

  const HOP_UP_TIMEOUT: nat := 45
  const POLL_INTERVAL: nat := 1
  const HOP_START_TRIES: nat := 5

  // What the system answers to the k-th question, asked about one name: the state of a
  // service, whether a hop has shaken hands, whether the start is refused for
  // a tunnel in transition, whether the service could be installed, and how
  // many seconds a turn of a waiting loop took.
  datatype Answer = Answer(state: Option<TunnelState>, handshook: bool, refused: bool, installed: bool, took: nat)

  // What happened, with the number of the question that showed it. A wait that
  // ran out of time has the number of its first question.
  datatype Event =
    | Observed(name: string, at: nat)
    | TimedOut(name: string, at: nat)
    | NotLoaded(name: string, at: nat)
    | Refused(name: string, at: nat)
    | Install(name: string, ok: bool, at: nat)

  predicate Failure(e: Event) {
    !e.Observed? && (e.Install? ==> !e.ok)
  }

  predicate Sights(e: Event, n: string) {
    e.Observed? && e.name == n
  }

  type World = (nat, string) -> Answer

  // ----- Looking at a hop until the time is up -----

  // Two answers: a started service, then a handshake.
  predicate Sees(world: World, hop: string, at: nat) {
    world(at, hop).state == Some(Started) && world(at + 1, hop).handshook
  }

  // The question after a look: only a started service is asked for its handshake.
  function AfterLook(world: World, hop: string, at: nat): (next: nat) {
    if world(at, hop).state == Some(Started) then at + 2 else at + 1
  }

  // The question the k-th look of a wait begins with.
  function LookAt(world: World, hop: string, from: nat, k: nat): (at: nat) {
    if k == 0 then from else AfterLook(world, hop, LookAt(world, hop, from, k - 1)) + 1
  }

  // The seconds the wait has used up before its k-th look.
  function UsedUp(world: World, hop: string, from: nat, k: nat): (seconds: nat) {
    if k == 0 then 0
    else
      UsedUp(world, hop, from, k - 1) + POLL_INTERVAL
      + world(AfterLook(world, hop, LookAt(world, hop, from, k - 1)), hop).took
  }

  // A look made while there is time sees the hop up.
  ghost predicate SeenInTime(world: World, hop: string, from: nat) {
    exists k: nat :: UsedUp(world, hop, from, k) < HOP_UP_TIMEOUT && Sees(world, hop, LookAt(world, hop, from, k))
  }

  lemma {:induction false} UpAllAlong(world: World, hop: string, from: nat)
    requires forall q: nat :: q >= from ==> world(q, hop).state == Some(Started) && world(q, hop).handshook
    ensures SeenInTime(world, hop, from)
  {
    assert UsedUp(world, hop, from, 0) < HOP_UP_TIMEOUT && LookAt(world, hop, from, 0) == from;
    assert Sees(world, hop, LookAt(world, hop, from, 0));
  }

  lemma {:induction false} UsedUpGrows(world: World, hop: string, from: nat, k: nat, m: nat)
    requires k <= m
    ensures UsedUp(world, hop, from, k) <= UsedUp(world, hop, from, m)
  {
    if k < m {
      UsedUpGrows(world, hop, from, k, m - 1);
    }
  }

  // Looks that saw nothing, and no time for another.
  lemma {:induction false} OutOfTime(world: World, hop: string, from: nat, m: nat)
    requires forall k: nat :: k < m ==> !Sees(world, hop, LookAt(world, hop, from, k))
    requires UsedUp(world, hop, from, m) >= HOP_UP_TIMEOUT
    ensures !SeenInTime(world, hop, from)
  {
    forall k: nat | k >= m
      ensures UsedUp(world, hop, from, k) >= HOP_UP_TIMEOUT
    {
      UsedUpGrows(world, hop, from, m, k);
    }
  }

  // ----- What is recorded is what was answered -----

  ghost predicate TrueOf(world: World, loads: string -> bool, e: Event) {
    match e
    case Observed(n, at) => Sees(world, n, at)
    case TimedOut(n, from) => !SeenInTime(world, n, from)
    case NotLoaded(n, _) => !loads(n)
    case Refused(n, at) => loads(n) && world(at, n).refused
    case Install(n, ok, at) => loads(n) && at > 0 && !world(at - 1, n).refused && world(at, n).installed == ok
  }

  ghost predicate Truthful(world: World, loads: string -> bool, from: nat, es: seq<Event>) {
    forall i :: 0 <= i < |es| ==> es[i].at >= from && TrueOf(world, loads, es[i])
  }

  lemma {:induction false} TruthfulAppend(world: World, loads: string -> bool, from: nat, mid: nat, es: seq<Event>, more: seq<Event>)
    requires from <= mid && Truthful(world, loads, from, es) && Truthful(world, loads, mid, more)
    ensures Truthful(world, loads, from, es + more)
  {
  }

  // From this question on nothing is in transition, every install succeeds, and
  // a hop is seen up in time whenever the wait for it begins.
  ghost predicate Kind(world: World, from: nat) {
    forall q: nat, n :: q >= from ==> !world(q, n).refused && world(q, n).installed && SeenInTime(world, n, q)
  }

  // ----- What a trace of events promises -----

  // Every install comes right after its parent was seen up.
  ghost predicate ParentSeen(t: Tree, es: seq<Event>) {
    forall i :: 0 <= i < |es| && es[i].Install? && t.parent(es[i].name).Some? ==>
      i > 0 && Sights(es[i - 1], t.parent(es[i].name).value)
  }

  ghost predicate Unbroken(es: seq<Event>, i: nat, j: nat)
    requires i <= j <= |es|
  {
    forall k :: i < k < j ==> !Failure(es[k])
  }

  // After a hop went up, and until something fails, only what rides on it goes up.
  ghost predicate Deepening(t: Tree, level: string -> nat, es: seq<Event>)
    requires Ranked(t, level)
  {
    forall i, j :: 0 <= i < j < |es| && es[i].Install? && es[i].ok && es[j].Install? && Unbroken(es, i, j) ==>
      Above(t, level, es[j].name, es[i].name)
  }

  // Only the tunnel itself and hops underneath it are installed.
  ghost predicate Within(t: Tree, level: string -> nat, es: seq<Event>, n: string)
    requires Ranked(t, level)
  {
    forall i :: 0 <= i < |es| && es[i].Install? ==> InBranch(t, level, n, es[i].name)
  }

  ghost predicate Under(t: Tree, level: string -> nat, es: seq<Event>, n: string)
    requires Ranked(t, level)
  {
    forall i :: 0 <= i < |es| && es[i].Install? ==> Above(t, level, n, es[i].name)
  }

  ghost predicate Orderly(t: Tree, level: string -> nat, es: seq<Event>)
    requires Ranked(t, level)
  {
    ParentSeen(t, es) && Deepening(t, level, es)
  }

  ghost predicate EndsInFailure(es: seq<Event>) {
    es != [] && Failure(es[|es| - 1])
  }

  ghost predicate EndsInstalling(es: seq<Event>, n: string) {
    es != [] && es[|es| - 1].Install? && es[|es| - 1].ok && es[|es| - 1].name == n
  }

  ghost predicate EndsSeeing(es: seq<Event>, n: string) {
    es != [] && Sights(es[|es| - 1], n)
  }

  // So many tries, each of which ended in a failure.
  ghost predicate FailedTries(es: seq<Event>, k: nat) {
    if k == 0 then es == []
    else exists i :: 0 <= i < |es| && Failure(es[|es| - 1]) && FailedTries(es[..i], k - 1)
  }

  lemma {:induction false} OneMoreTry(es: seq<Event>, more: seq<Event>, k: nat)
    requires FailedTries(es, k) && EndsInFailure(more)
    ensures FailedTries(es + more, k + 1)
  {
    assert (es + more)[..|es|] == es;
  }

  predicate InstallsNothing(es: seq<Event>) {
    forall i :: 0 <= i < |es| ==> !es[i].Install?
  }

  lemma {:induction false} UnbrokenPart(es: seq<Event>, more: seq<Event>, i: nat, j: nat)
    requires i <= j <= |es + more| && Unbroken(es + more, i, j)
    ensures j <= |es| ==> Unbroken(es, i, j)
    ensures |es| <= i ==> Unbroken(more, i - |es|, j - |es|)
  {
    var all := es + more;
    if j <= |es| {
      forall k | i < k < j
        ensures !Failure(es[k])
      {
        assert es[k] == all[k];
      }
    }
    if |es| <= i {
      forall k | i - |es| < k < j - |es|
        ensures !Failure(more[k])
      {
        assert more[k] == all[k + |es|];
      }
    }
  }

  // A further try after a failed one.
  lemma {:induction false} AnotherTry(t: Tree, level: string -> nat, es: seq<Event>, more: seq<Event>, n: string)
    requires Ranked(t, level) && Orderly(t, level, es) && Orderly(t, level, more)
    requires Within(t, level, es, n) && Within(t, level, more, n)
    requires es == [] || EndsInFailure(es)
    ensures Orderly(t, level, es + more) && Within(t, level, es + more, n)
  {
    var all := es + more;
    assert es != [] ==> Failure(all[|es| - 1]);
    forall i, j | 0 <= i < j < |all| && all[i].Install? && all[i].ok && all[j].Install? && Unbroken(all, i, j)
      ensures Above(t, level, all[j].name, all[i].name)
    {
      UnbrokenPart(es, more, i, j);
    }
  }

  // An event that installs nothing.
  lemma {:induction false} OneMore(t: Tree, level: string -> nat, es: seq<Event>, e: Event)
    requires Ranked(t, level) && Orderly(t, level, es) && !e.Install?
    ensures Orderly(t, level, es + [e])
  {
    var all := es + [e];
    forall i, j | 0 <= i < j < |all| && all[i].Install? && all[i].ok && all[j].Install? && Unbroken(all, i, j)
      ensures Above(t, level, all[j].name, all[i].name)
    {
      UnbrokenPart(es, [e], i, j);
    }
  }

  // The tunnel itself, once its parent was seen.
  lemma {:induction false} ThenInstall(t: Tree, level: string -> nat, es: seq<Event>, e: Event)
    requires Ranked(t, level) && Orderly(t, level, es) && e.Install? && Under(t, level, es, e.name)
    requires t.parent(e.name).Some? ==> EndsSeeing(es, t.parent(e.name).value)
    ensures Orderly(t, level, es + [e]) && Within(t, level, es + [e], e.name)
  {
    var all := es + [e];
    forall i, j | 0 <= i < j < |all| && all[i].Install? && all[i].ok && all[j].Install? && Unbroken(all, i, j)
      ensures Above(t, level, all[j].name, all[i].name)
    {
      UnbrokenPart(es, [e], i, j);
    }
  }

  lemma {:induction false} UnderParent(t: Tree, level: string -> nat, es: seq<Event>, n: string)
    requires Ranked(t, level) && t.parent(n).Some? && Within(t, level, es, t.parent(n).value)
    ensures Under(t, level, es, n)
  {
  }

  // In a run without failures the hops go up in one sweep from the deepest.
  lemma {:induction false} SweepsUpwards(t: Tree, level: string -> nat, es: seq<Event>, i: nat, j: nat)
    requires Ranked(t, level) && Orderly(t, level, es)
    requires forall k :: 0 <= k < |es| ==> !Failure(es[k])
    requires i < j < |es| && es[i].Install? && es[j].Install?
    ensures Above(t, level, es[j].name, es[i].name) && level(es[i].name) < level(es[j].name)
  {
    assert !Failure(es[i]);
    assert Unbroken(es, i, j);
    AboveLevel(t, level, es[j].name, es[i].name);
  }

  // The hop was installed, and something more was recorded.
  predicate JustInstalled(es: seq<Event>, hop: string) {
    |es| > 1 && es[|es| - 2].Install? && es[|es| - 2].ok && es[|es| - 2].name == hop
  }

  // How the hop underneath was raised, by what the first look at it saw.
  ghost predicate Raised(world: World, hop: string, from: nat, ok: bool, es: seq<Event>) {
    var state := world(from, hop).state;
    && (ok ==> EndsSeeing(es, hop))
    && if Sees(world, hop, from) then ok && es == [Observed(hop, from)]
       else if state == Some(Started) || state == Some(Starting) then
         InstallsNothing(es) && (ok <==> SeenInTime(world, hop, AfterLook(world, hop, from)))
       else JustInstalled(es, hop) || (!ok && FailedTries(es, HOP_START_TRIES))
  }

  lemma {:induction false} NothingInstalled(t: Tree, level: string -> nat, es: seq<Event>, n: string)
    requires Ranked(t, level) && InstallsNothing(es)
    ensures Orderly(t, level, es) && Under(t, level, es, n)
  {
  }

  // In a kind world where every name loads there is no failure to record.
  lemma {:induction false} KindNeverFails(world: World, loads: string -> bool, from: nat, es: seq<Event>)
    requires (forall n :: loads(n)) && Kind(world, from) && Truthful(world, loads, from, es)
    ensures !EndsInFailure(es)
  {
    if es != [] {
      var e := es[|es| - 1];
      assert TrueOf(world, loads, e) && e.at >= from;
      assert !world(e.at, e.name).refused && world(e.at, e.name).installed && SeenInTime(world, e.name, e.at);
    }
  }

  // ----- The manager -----

  class Manager {
    const tree: Tree
    const loads: string -> bool
    const world: World
    var asked: nat
    var trace: seq<Event>

    constructor (tree: Tree, loads: string -> bool, world: World)
      ensures this.tree == tree && this.loads == loads && this.world == world && asked == 0 && trace == []
    {
      this.tree := tree;
      this.loads := loads;
      this.world := world;
      asked := 0;
      trace := [];
    }

    // The events recorded since, and that they are truthful.
    twostate predicate Adds(es: seq<Event>)
      reads this
    {
      trace == old(trace) + es && asked >= old(asked) && Truthful(world, loads, old(asked), es)
    }

    method Ask(n: string) returns (a: Answer)
      modifies this`asked
      ensures a == world(old(asked), n) && asked == old(asked) + 1
    {
      a := world(asked, n);
      asked := asked + 1;
    }

    method Record(e: Event)
      modifies this`trace
      ensures trace == old(trace) + [e]
    {
      trace := trace + [e];
    }

    // Whether the hop is started and has shaken hands; `up` is recorded when it has.
    method Look(hop: string) returns (state: Option<TunnelState>, up: bool, ghost es: seq<Event>)
      modifies this
      ensures Adds(es)
      ensures state == world(old(asked), hop).state && asked == AfterLook(world, hop, old(asked))
      ensures up <==> Sees(world, hop, old(asked))
      ensures es == if up then [Observed(hop, old(asked))] else []
    {
      var at := asked;
      var s := Ask(hop);
      state := s.state;
      up := false;
      es := [];
      if state == Some(Started) {
        var h := Ask(hop);
        if h.handshook {
          Record(Observed(hop, at));
          up := true;
          es := [Observed(hop, at)];
        }
      }
    }

    // Polls until the hop is started with a handshake or the time is up: it ends
    // well exactly when a look made in time sees the hop up.
    method WaitForHop(hop: string) returns (ok: bool, ghost es: seq<Event>)
      modifies this
      ensures Adds(es)
      ensures ok <==> SeenInTime(world, hop, old(asked))
      ensures |es| == 1 && if ok then Sights(es[0], hop) else es[0] == TimedOut(hop, old(asked))
    {
      var from := asked;
      var waited := 0;
      ghost var k := 0;
      while waited < HOP_UP_TIMEOUT
        invariant Adds([])
        invariant asked == LookAt(world, hop, from, k) && waited == UsedUp(world, hop, from, k)
        invariant forall i: nat :: i < k ==> !Sees(world, hop, LookAt(world, hop, from, i))
        decreases HOP_UP_TIMEOUT - waited
      {
        var _, up, seen := Look(hop);
        if up {
          return true, seen;
        }
        var turn := Ask(hop);
        waited := waited + POLL_INTERVAL + turn.took;
        k := k + 1;
      }
      OutOfTime(world, hop, from, k);
      Record(TimedOut(hop, from));
      return false, [TimedOut(hop, from)];
    }

    // A hop that is up is only looked at, one that is on its way is waited for,
    // and any other is started first.
    method StartParents(n: string, depth: nat, ghost level: string -> nat) returns (ok: bool, ghost es: seq<Event>)
      requires Ranked(tree, level)
      modifies this
      ensures Adds(es)
      ensures Orderly(tree, level, es) && Under(tree, level, es, n)
      ensures !ok ==> EndsInFailure(es)
      ensures depth >= MAX_DEPTH || tree.parent(n).None? ==> ok && es == []
      ensures depth < MAX_DEPTH && tree.parent(n).Some? ==> Raised(world, tree.parent(n).value, old(asked), ok, es)
      decreases level(n), 0
    {
      es := [];
      if depth >= MAX_DEPTH {
        return true, es;
      }
      var parent := tree.parent(n);
      if parent.None? {
        return true, es;
      }
      var hop := parent.value;
      var state, up;
      state, up, es := Look(hop);
      NothingInstalled(tree, level, es, n);
      if up {
        return true, es;
      }
      if state == Some(Started) || state == Some(Starting) {
        ok, es := WaitForHop(hop);
        NothingInstalled(tree, level, es, n);
        return;
      }
      ghost var mid, more := asked, [];
      ok, more := RaiseHop(hop, level);
      TruthfulAppend(world, loads, old(asked), mid, [], more);
      es := more;
      UnderParent(tree, level, es, n);
    }

    // Starts the hop and waits until it is up.
    method RaiseHop(hop: string, ghost level: string -> nat) returns (ok: bool, ghost es: seq<Event>)
      requires Ranked(tree, level)
      modifies this
      ensures Adds(es)
      ensures Orderly(tree, level, es) && Within(tree, level, es, hop)
      ensures if ok then EndsSeeing(es, hop) else EndsInFailure(es)
      ensures JustInstalled(es, hop) || (!ok && FailedTries(es, HOP_START_TRIES))
      decreases level(hop), 3
    {
      ok, es := StartHopWithRetry(hop, level);
      if !ok {
        return;
      }
      ghost var mid, seen := asked, [];
      ok, seen := WaitForHop(hop);
      TruthfulAppend(world, loads, old(asked), mid, es, seen);
      OneMore(tree, level, es, seen[0]);
      assert seen == [seen[0]];
      es := es + seen;
    }

    method StartHopWithRetry(n: string, ghost level: string -> nat) returns (ok: bool, ghost es: seq<Event>)
      requires Ranked(tree, level)
      modifies this
      ensures Adds(es)
      ensures Orderly(tree, level, es) && Within(tree, level, es, n)
      ensures ok ==> EndsInstalling(es, n)
      ensures !ok ==> FailedTries(es, HOP_START_TRIES)
      decreases level(n), 2
    {
      es := [];
      ok := false;
      for try := 1 to HOP_START_TRIES + 1
        invariant Adds(es)
        invariant Orderly(tree, level, es) && Within(tree, level, es, n)
        invariant FailedTries(es, try - 1)
      {
        ghost var mid, more := asked, [];
        ok, more := StartTunnel(n, level);
        TruthfulAppend(world, loads, old(asked), mid, es, more);
        AnotherTry(tree, level, es, more, n);
        if !ok {
          OneMoreTry(es, more, try - 1);
        }
        es := es + more;
        if ok {
          return;
        }
      }
    }

    method StartTunnel(n: string, ghost level: string -> nat) returns (ok: bool, ghost es: seq<Event>)
      requires Ranked(tree, level)
      modifies this
      ensures Adds(es)
      ensures Orderly(tree, level, es) && Within(tree, level, es, n)
      ensures ok ==> EndsInstalling(es, n)
      ensures !ok ==> EndsInFailure(es)
      ensures (forall x :: loads(x)) && Kind(world, old(asked)) ==> ok
      decreases level(n), 1
    {
      if !loads(n) {
        Record(NotLoaded(n, asked));
        return false, [NotLoaded(n, asked)];
      }
      ok, es := StartParents(n, 0, level);
      if !ok {
        if (forall x :: loads(x)) && Kind(world, old(asked)) {
          KindNeverFails(world, loads, old(asked), es);
        }
        return;
      }
      var at := asked;
      var check := Ask(n);
      if check.refused {
        Record(Refused(n, at));
        OneMore(tree, level, es, Refused(n, at));
        return false, es + [Refused(n, at)];
      }
      var a := Ask(n);
      var e := Install(n, a.installed, at + 1);
      Record(e);
      ThenInstall(tree, level, es, e);
      return a.installed, es + [e];
    }
  }
}
