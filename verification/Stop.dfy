// Stopping a tunnel: whatever rides on it goes first, top down, and the hidden
// hops underneath go when nothing else rides on them. Both walks stop after
// MAX_DEPTH rides.
module Stop {
  import opened Text
  import opened Forest

  datatype TunnelState = Stopped | Starting | Started | Stopping | Unknown

  const MAX_DEPTH: nat := 4

  type States = map<string, TunnelState>

  // A tunnel with no service is stopped.
  function StateIn(s: States, n: string): (r: TunnelState) {
    if n in s then s[n] else Stopped
  }

  predicate RunningIn(s: States, n: string) {
    StateIn(s, n).Started? || StateIn(s, n).Starting?
  }

  // A running tunnel has the hop it rides on running.
  ghost predicate Closed(t: Tree, s: States) {
    forall n {:trigger t.parent(n)} :: RunningIn(s, n) && t.parent(n).Some? ==> RunningIn(s, t.parent(n).value)
  }

  ghost predicate NoRunningRider(t: Tree, s: States, n: string) {
    forall c :: t.parent(c) == Some(n) ==> !RunningIn(s, c)
  }

  // No hop comes in the list before something that rides on it.
  ghost predicate RidersFirst(t: Tree, done: seq<string>) {
    forall i, j :: 0 <= i < j < |done| ==> t.parent(done[j]) != Some(done[i])
  }

  // ----- Riding on a hop through at most k rides -----

  ghost predicate Near(t: Tree, n: string, hop: string, k: nat)
    decreases k
  {
    k > 0 && t.parent(n).Some? && (t.parent(n).value == hop || Near(t, t.parent(n).value, hop, k - 1))
  }

  ghost predicate NearOrAt(t: Tree, n: string, hop: string, k: nat) {
    n == hop || Near(t, n, hop, k)
  }

  lemma {:induction false} NearIsAbove(t: Tree, level: string -> nat, n: string, hop: string, k: nat)
    requires Ranked(t, level) && Near(t, n, hop, k)
    ensures Above(t, level, n, hop) && level(hop) < level(n)
    decreases k
  {
    if t.parent(n).value != hop {
      NearIsAbove(t, level, t.parent(n).value, hop, k - 1);
    }
  }

  // Whatever is near a hop is a rider of it or near one, one ride less.
  lemma {:induction false} NearRider(t: Tree, n: string, hop: string, k: nat) returns (c: string)
    requires Near(t, n, hop, k)
    ensures k > 0 && t.parent(c) == Some(hop) && NearOrAt(t, n, c, k - 1)
    decreases k
  {
    if t.parent(n).value == hop {
      c := n;
    } else {
      c := NearRider(t, t.parent(n).value, hop, k - 1);
    }
  }

  lemma {:induction false} RiderIsNear(t: Tree, n: string, c: string, hop: string, k: nat)
    requires t.parent(c) == Some(hop) && NearOrAt(t, n, c, k)
    ensures Near(t, n, hop, k + 1)
    decreases k
  {
    if n != c && t.parent(n).value != c {
      RiderIsNear(t, t.parent(n).value, c, hop, k - 1);
    }
  }

  // ----- What is left of a branch -----

  // In the branch of a hop a running tunnel has the hop it rides on running.
  ghost predicate BranchClosed(t: Tree, level: string -> nat, s: States, hop: string)
    requires Ranked(t, level)
  {
    forall n {:trigger t.parent(n)} :: RunningIn(s, n) && t.parent(n).Some? && InBranch(t, level, t.parent(n).value, hop) ==>
      RunningIn(s, t.parent(n).value)
  }

  ghost predicate AllAbove(t: Tree, level: string -> nat, done: seq<string>, hop: string)
    requires Ranked(t, level)
  {
    forall x :: x in done ==> Above(t, level, x, hop)
  }

  ghost predicate DownNear(t: Tree, s: States, hop: string, k: nat) {
    forall x :: Near(t, x, hop, k) ==> !RunningIn(s, x)
  }

  ghost predicate SameBeyond(t: Tree, s: States, s': States, hop: string, k: nat) {
    forall x :: !Near(t, x, hop, k) ==> StateIn(s', x) == StateIn(s, x)
  }

  // Everything within k rides above the hop is down, riders first, and nothing
  // else changed.
  ghost predicate Cleared(t: Tree, level: string -> nat, s0: States, s: States, done: seq<string>, hop: string, k: nat)
    requires Ranked(t, level)
  {
    && DownNear(t, s, hop, k) && SameBeyond(t, s0, s, hop, k)
    && AllAbove(t, level, done, hop) && RidersFirst(t, done)
  }

  lemma {:induction false} DownWithHop(t: Tree, level: string -> nat, s: States, n: string, hop: string, k: nat)
    requires Ranked(t, level) && BranchClosed(t, level, s, hop) && !RunningIn(s, hop) && Near(t, n, hop, k)
    ensures !RunningIn(s, n)
    decreases k
  {
    if t.parent(n).value != hop {
      NearIsAbove(t, level, t.parent(n).value, hop, k - 1);
      DownWithHop(t, level, s, t.parent(n).value, hop, k - 1);
    }
  }

  // ----- The list of what was stopped, branch by branch -----

  // Everything done so far lies in the branches of the first k riders.
  ghost predicate InFirst(t: Tree, level: string -> nat, done: seq<string>, cs: seq<string>, k: nat)
    requires Ranked(t, level) && k <= |cs|
  {
    forall x :: x in done ==> exists i :: 0 <= i < k && InBranch(t, level, x, cs[i])
  }

  lemma {:induction false} RidersFirstBranch(t: Tree, level: string -> nat, done: seq<string>, sub: seq<string>, cs: seq<string>, k: nat, hop: string)
    requires Consistent(t, level) && k < |cs| && cs == t.children(hop) && hop in t.names
    requires InFirst(t, level, done, cs, k) && AllAbove(t, level, done, hop) && RidersFirst(t, done)
    requires AllAbove(t, level, sub, cs[k]) && RidersFirst(t, sub)
    ensures RidersFirst(t, done + (sub + [cs[k]]))
  {
    var c := cs[k];
    assert c in t.children(hop);
    assert t.parent(c) == Some(hop);
    var tail := sub + [c];
    forall i, j | 0 <= i < j < |tail|
      ensures t.parent(tail[j]) != Some(tail[i])
    {
      if j == |sub| {
        assert tail[i] in sub;
        AboveLevel(t, level, tail[i], c);
      }
    }
    forall x, y | x in done && y in tail
      ensures t.parent(y) != Some(x)
    {
      if t.parent(y) == Some(x) {
        AboveLevel(t, level, x, hop);
        assert y != c;
        assert y in sub;
        assert InBranch(t, level, x, c);
        var i :| 0 <= i < k && InBranch(t, level, x, cs[i]);
        assert cs[i] in t.children(hop);
        BranchesApart(t, level, x, cs[i], c);
      }
    }
    RidersFirstAppend(t, done, tail);
  }

  lemma {:induction false} RidersFirstAppend(t: Tree, a: seq<string>, b: seq<string>)
    requires RidersFirst(t, a) && RidersFirst(t, b)
    requires forall x, y :: x in a && y in b ==> t.parent(y) != Some(x)
    ensures RidersFirst(t, a + b)
  {
    var s := a + b;
    forall i, j | 0 <= i < j < |s|
      ensures t.parent(s[j]) != Some(s[i])
    {
      if i < |a| && j >= |a| {
        assert s[i] in a && s[j] in b;
      }
    }
  }

  lemma {:induction false} AllAboveBranch(t: Tree, level: string -> nat, sub: seq<string>, c: string, hop: string)
    requires Ranked(t, level) && t.parent(c) == Some(hop) && AllAbove(t, level, sub, c)
    ensures AllAbove(t, level, sub + [c], hop)
  {
    forall x | x in sub
      ensures Above(t, level, x, hop)
    {
      AboveTrans(t, level, x, c, hop);
    }
  }

  lemma {:induction false} InFirstMore(t: Tree, level: string -> nat, done: seq<string>, tail: seq<string>, cs: seq<string>, k: nat)
    requires Ranked(t, level) && k < |cs| && InFirst(t, level, done, cs, k)
    requires forall x :: x in tail ==> InBranch(t, level, x, cs[k])
    ensures InFirst(t, level, done + tail, cs, k + 1)
  {
    forall x | x in done + tail
      ensures exists i :: 0 <= i < k + 1 && InBranch(t, level, x, cs[i])
    {
      if x in done {
        var i :| 0 <= i < k && InBranch(t, level, x, cs[i]);
      } else {
        assert InBranch(t, level, x, cs[k]);
      }
    }
  }

  // ----- Going through the riders of a hop -----

  ghost predicate BranchDown(t: Tree, s: States, c: string, k: nat) {
    !RunningIn(s, c) && DownNear(t, s, c, k)
  }

  // Nothing outside the first n branches changed, and nothing was started.
  ghost predicate SameButFirst(t: Tree, s0: States, s: States, cs: seq<string>, n: nat, k: nat)
    requires n <= |cs|
  {
    forall x :: StateIn(s, x) != StateIn(s0, x) ==>
      !RunningIn(s, x) && exists i :: 0 <= i < n && NearOrAt(t, x, cs[i], k)
  }

  // What holds after the branches of the first n riders were dealt with, each
  // k rides high.
  ghost predicate Progress(t: Tree, level: string -> nat, s0: States, s: States, done: seq<string>, cs: seq<string>, n: nat, k: nat, hop: string)
    requires Ranked(t, level) && n <= |cs|
  {
    && (forall i :: 0 <= i < n ==> BranchDown(t, s, cs[i], k))
    && SameButFirst(t, s0, s, cs, n, k)
    && AllAbove(t, level, done, hop) && RidersFirst(t, done)
    && InFirst(t, level, done, cs, n)
  }

  lemma {:induction false} RiderOf(t: Tree, level: string -> nat, cs: seq<string>, n: nat, hop: string)
    requires Consistent(t, level) && hop in t.names && cs == t.children(hop) && n < |cs|
    ensures t.parent(cs[n]) == Some(hop) && cs[n] in t.names && level(hop) < level(cs[n])
  {
    assert cs[n] in cs;
  }

  // The branch of the next rider is as it was at the start.
  lemma {:induction false} NextBranch(t: Tree, level: string -> nat, s0: States, s: States, done: seq<string>, cs: seq<string>, n: nat, k: nat, hop: string)
    requires Consistent(t, level) && hop in t.names && cs == t.children(hop) && n < |cs|
    requires BranchClosed(t, level, s0, hop) && Progress(t, level, s0, s, done, cs, n, k, hop)
    ensures BranchClosed(t, level, s, cs[n])
  {
    var c := cs[n];
    RiderOf(t, level, cs, n, hop);
    forall x | InBranch(t, level, x, c)
      ensures StateIn(s, x) == StateIn(s0, x)
    {
      BranchUntouched(t, level, s0, s, done, cs, n, k, hop, x);
    }
    forall x | RunningIn(s, x) && t.parent(x).Some? && InBranch(t, level, t.parent(x).value, c)
      ensures RunningIn(s, t.parent(x).value)
    {
      assert InBranch(t, level, x, c);
      AboveBranch(t, level, t.parent(x).value, c, hop);
    }
  }

  lemma {:induction false} AboveBranch(t: Tree, level: string -> nat, x: string, c: string, hop: string)
    requires Ranked(t, level) && t.parent(c) == Some(hop) && InBranch(t, level, x, c)
    ensures Above(t, level, x, hop)
  {
    if x != c {
      AboveTrans(t, level, x, c, hop);
    }
  }

  lemma {:induction false} BranchUntouched(t: Tree, level: string -> nat, s0: States, s: States, done: seq<string>, cs: seq<string>, n: nat, k: nat, hop: string, x: string)
    requires Consistent(t, level) && hop in t.names && cs == t.children(hop) && n < |cs|
    requires Progress(t, level, s0, s, done, cs, n, k, hop) && InBranch(t, level, x, cs[n])
    ensures StateIn(s, x) == StateIn(s0, x)
  {
    if StateIn(s, x) != StateIn(s0, x) {
      var i :| 0 <= i < n && NearOrAt(t, x, cs[i], k);
      RiderOf(t, level, cs, i, hop);
      RiderOf(t, level, cs, n, hop);
      if x != cs[i] {
        NearIsAbove(t, level, x, cs[i], k);
      }
      BranchesApart(t, level, x, cs[i], cs[n]);
    }
  }

  lemma {:induction false} ProgressBegin(t: Tree, level: string -> nat, s: States, cs: seq<string>, k: nat, hop: string)
    requires Ranked(t, level)
    ensures Progress(t, level, s, s, [], cs, 0, k, hop)
  {
  }

  lemma {:induction false} ProgressSkip(t: Tree, level: string -> nat, s0: States, s: States, done: seq<string>, cs: seq<string>, n: nat, k: nat, hop: string)
    requires Ranked(t, level) && n < |cs| && Progress(t, level, s0, s, done, cs, n, k, hop)
    requires BranchClosed(t, level, s, cs[n]) && StateIn(s, cs[n]).Stopped?
    ensures Progress(t, level, s0, s, done, cs, n + 1, k, hop)
  {
    InFirstMore(t, level, done, [], cs, n);
    assert done + [] == done;
    forall x | Near(t, x, cs[n], k)
      ensures !RunningIn(s, x)
    {
      DownWithHop(t, level, s, x, cs[n], k);
    }
  }

  lemma {:induction false} ChangedMore(t: Tree, s0: States, s1: States, s2: States, cs: seq<string>, n: nat, k: nat)
    requires n < |cs| && SameButFirst(t, s0, s1, cs, n, k)
    requires DownNear(t, s2, cs[n], k) && SameBeyond(t, s1, s2, cs[n], k)
    ensures SameButFirst(t, s0, s2[cs[n] := Stopped], cs, n + 1, k)
  {
    var c := cs[n];
    var s := s2[c := Stopped];
    forall x | StateIn(s, x) != StateIn(s0, x)
      ensures !RunningIn(s, x) && exists i :: 0 <= i < n + 1 && NearOrAt(t, x, cs[i], k)
    {
      if NearOrAt(t, x, c, k) {
        assert cs[n] == c;
      } else {
        assert StateIn(s, x) == StateIn(s1, x);
        var i :| 0 <= i < n && NearOrAt(t, x, cs[i], k);
      }
    }
  }

  lemma {:induction false} BranchesStayDown(t: Tree, s1: States, s2: States, cs: seq<string>, n: nat, k: nat, i: nat)
    requires i <= n < |cs| && (i < n ==> BranchDown(t, s1, cs[i], k))
    requires DownNear(t, s2, cs[n], k) && SameBeyond(t, s1, s2, cs[n], k)
    ensures BranchDown(t, s2[cs[n] := Stopped], cs[i], k)
  {
    var s := s2[cs[n] := Stopped];
    forall x | !RunningIn(s1, x)
      ensures !RunningIn(s, x)
    {
      if x != cs[n] && !Near(t, x, cs[n], k) {
        assert StateIn(s, x) == StateIn(s1, x);
      }
    }
  }

  lemma {:induction false} ProgressStop(t: Tree, level: string -> nat, s0: States, s1: States, s2: States, done: seq<string>, sub: seq<string>, cs: seq<string>, n: nat, k: nat, hop: string)
    requires Consistent(t, level) && hop in t.names && cs == t.children(hop) && n < |cs|
    requires Progress(t, level, s0, s1, done, cs, n, k, hop)
    requires Cleared(t, level, s1, s2, sub, cs[n], k)
    ensures Progress(t, level, s0, s2[cs[n] := Stopped], done + (sub + [cs[n]]), cs, n + 1, k, hop)
  {
    RiderOf(t, level, cs, n, hop);
    RidersFirstBranch(t, level, done, sub, cs, n, hop);
    AllAboveBranch(t, level, sub, cs[n], hop);
    InFirstMore(t, level, done, sub + [cs[n]], cs, n);
    ChangedMore(t, s0, s1, s2, cs, n, k);
    forall i: nat | i <= n
      ensures BranchDown(t, s2[cs[n] := Stopped], cs[i], k)
    {
      BranchesStayDown(t, s1, s2, cs, n, k, i);
    }
  }

  lemma {:induction false} ProgressEnd(t: Tree, level: string -> nat, s0: States, s: States, done: seq<string>, cs: seq<string>, k: nat, hop: string)
    requires Consistent(t, level) && hop in t.names && cs == t.children(hop)
    requires Progress(t, level, s0, s, done, cs, |cs|, k, hop)
    ensures Cleared(t, level, s0, s, done, hop, k + 1)
  {
    forall x | Near(t, x, hop, k + 1)
      ensures !RunningIn(s, x)
    {
      var c := NearRider(t, x, hop, k + 1);
      assert c in cs;
      var i :| 0 <= i < |cs| && cs[i] == c;
      assert BranchDown(t, s, cs[i], k);
    }
    forall x | !Near(t, x, hop, k + 1)
      ensures StateIn(s, x) == StateIn(s0, x)
    {
      if StateIn(s, x) != StateIn(s0, x) {
        var i :| 0 <= i < |cs| && NearOrAt(t, x, cs[i], k);
        RiderOf(t, level, cs, i, hop);
        RiderIsNear(t, x, cs[i], hop, k);
      }
    }
  }

  // ----- Hidden hops underneath -----

  // `hop` is reached from `n` downwards through at most k hops, all hidden.
  ghost predicate HiddenUnder(t: Tree, n: string, hop: string, k: nat)
    decreases k
  {
    && k > 0 && t.parent(n).Some? && t.hidden(t.parent(n).value)
    && (t.parent(n).value == hop || HiddenUnder(t, t.parent(n).value, hop, k - 1))
  }

  lemma {:induction false} HiddenIsLower(t: Tree, level: string -> nat, n: string, hop: string, k: nat)
    requires Ranked(t, level) && HiddenUnder(t, n, hop, k)
    ensures level(hop) < level(n)
    decreases k
  {
    if t.parent(n).value != hop {
      HiddenIsLower(t, level, t.parent(n).value, hop, k - 1);
    }
  }

  ghost predicate HasRunningRider(t: Tree, s: States, hop: string) {
    exists c :: t.parent(c) == Some(hop) && RunningIn(s, c)
  }

  // No hidden hop within k hops underneath runs for nobody.
  ghost predicate HiddenNeeded(t: Tree, s: States, n: string, k: nat) {
    forall hop :: HiddenUnder(t, n, hop, k) && RunningIn(s, hop) ==> HasRunningRider(t, s, hop)
  }

  // Below a level a running tunnel has the hop it rides on running.
  ghost predicate ClosedBelow(t: Tree, level: string -> nat, s: States, bound: nat) {
    forall n {:trigger t.parent(n)} :: RunningIn(s, n) && level(n) < bound && t.parent(n).Some? ==>
      RunningIn(s, t.parent(n).value)
  }

  lemma {:induction false} RunningDownwards(t: Tree, level: string -> nat, s: States, n: string, hop: string, k: nat, bound: nat)
    requires Ranked(t, level) && ClosedBelow(t, level, s, bound) && level(n) < bound
    requires RunningIn(s, n) && HiddenUnder(t, n, hop, k)
    ensures HasRunningRider(t, s, hop)
    decreases k
  {
    if t.parent(n).value != hop {
      RunningDownwards(t, level, s, t.parent(n).value, hop, k - 1, bound);
    }
  }

  // A hop that stays because of another rider keeps all hops below it needed.
  lemma {:induction false} NeededFrom(t: Tree, level: string -> nat, s: States, n: string, k: nat)
    requires Ranked(t, level) && ClosedBelow(t, level, s, level(n))
    requires t.parent(n).Some? && RunningIn(s, t.parent(n).value) && HasRunningRider(t, s, t.parent(n).value)
    ensures HiddenNeeded(t, s, n, k)
  {
    forall hop | HiddenUnder(t, n, hop, k)
      ensures HasRunningRider(t, s, hop)
    {
      if t.parent(n).value != hop {
        RunningDownwards(t, level, s, t.parent(n).value, hop, k - 1, level(n));
      }
    }
  }

  // Hops that lie ever further down.
  ghost predicate Descending(level: string -> nat, done: seq<string>, top: nat) {
    && (forall i :: 0 <= i < |done| ==> level(done[i]) < top)
    && (forall i, j :: 0 <= i < j < |done| ==> level(done[j]) < level(done[i]))
  }

  lemma {:induction false} DescendingIsRidersFirst(t: Tree, level: string -> nat, done: seq<string>, top: nat)
    requires Ranked(t, level) && Descending(level, done, top)
    ensures RidersFirst(t, done)
  {
  }

  // The hop underneath, if there is one, runs.
  ghost predicate HopRuns(t: Tree, s: States, n: string) {
    t.parent(n).Some? ==> RunningIn(s, t.parent(n).value)
  }

  // Only hidden hops within k hops underneath were stopped, ever further down,
  // each with nothing running on it, and none of those is left running for
  // nobody.
  ghost predicate Dropped(t: Tree, level: string -> nat, s0: States, s: States, done: seq<string>, n: string, k: nat) {
    && Descending(level, done, level(n))
    && (forall x :: x in done ==> HiddenUnder(t, n, x, k) && NoRunningRider(t, s, x))
    && (forall x :: StateIn(s, x) == if x in done then Stopped else StateIn(s0, x))
    && (HopRuns(t, s0, n) ==> HiddenNeeded(t, s, n, k))
  }

  lemma {:induction false} NothingDropped(t: Tree, level: string -> nat, s: States, n: string, k: nat)
    requires Ranked(t, level) && ClosedBelow(t, level, s, level(n))
    requires k == 0 || t.parent(n).None? || !t.hidden(t.parent(n).value)
          || !RunningIn(s, t.parent(n).value) || HasRunningRider(t, s, t.parent(n).value)
    ensures Dropped(t, level, s, s, [], n, k)
  {
    if t.parent(n).Some? && RunningIn(s, t.parent(n).value) && HasRunningRider(t, s, t.parent(n).value) {
      NeededFrom(t, level, s, n, k);
    }
  }

  lemma {:induction false} DroppedMore(t: Tree, level: string -> nat, s0: States, s: States, below: seq<string>, n: string, k: nat)
    requires Ranked(t, level) && ClosedBelow(t, level, s0, level(n)) && t.parent(n).Some? && t.hidden(t.parent(n).value)
    requires NoRunningRider(t, s0, t.parent(n).value)
    requires Dropped(t, level, s0[t.parent(n).value := Stopped], s, below, t.parent(n).value, k)
    ensures Dropped(t, level, s0, s, [t.parent(n).value] + below, n, k + 1)
  {
    var hop := t.parent(n).value;
    var done := [hop] + below;
    forall i, j | 0 <= i < j < |done|
      ensures level(done[j]) < level(done[i])
    {
      assert done[j] == below[j - 1];
    }
    assert !RunningIn(s, hop);
    forall x | x in done
      ensures HiddenUnder(t, n, x, k + 1) && NoRunningRider(t, s, x)
    {
      if x == hop {
        OnlyStopsKeep(t, s0, s, hop);
      }
    }
    if HopRuns(t, s0, n) {
      assert HopRuns(t, s0[hop := Stopped], hop);
    }
  }

  lemma {:induction false} OnlyStopsKeep(t: Tree, s0: States, s: States, hop: string)
    requires NoRunningRider(t, s0, hop) && forall x :: RunningIn(s, x) ==> RunningIn(s0, x)
    ensures NoRunningRider(t, s, hop)
  {
  }

  lemma {:induction false} NoOtherRider(t: Tree, s: States, hop: string, n: string)
    requires !RunningIn(s, n)
    requires !exists c :: t.parent(c) == Some(hop) && c != n && RunningIn(s, c)
    ensures NoRunningRider(t, s, hop)
  {
  }

  // ----- What stopping a tunnel promises -----

  // A rider just beyond the reach of the walk upwards.
  ghost predicate OnEdge(t: Tree, n: string, hop: string) {
    Near(t, n, hop, MAX_DEPTH + 1) && !Near(t, n, hop, MAX_DEPTH)
  }

  ghost predicate ClosedButEdge(t: Tree, s: States, hop: string) {
    forall n {:trigger t.parent(n)} :: RunningIn(s, n) && t.parent(n).Some? && !OnEdge(t, n, hop) ==>
      RunningIn(s, t.parent(n).value)
  }

  ghost predicate StopOutcome(t: Tree, s0: States, s: States, done: seq<string>, n: string) {
    && !RunningIn(s, n) && DownNear(t, s, n, MAX_DEPTH)
    && RidersFirst(t, done)
    && ClosedButEdge(t, s, n)
    && (RunningIn(s0, n) ==> HiddenNeeded(t, s, n, MAX_DEPTH))
    && (forall x :: x != n && !Near(t, x, n, MAX_DEPTH) && !HiddenUnder(t, n, x, MAX_DEPTH) ==> StateIn(s, x) == StateIn(s0, x))
  }

  lemma {:induction false} AfterBranch(t: Tree, level: string -> nat, s0: States, s1: States, above: seq<string>, n: string)
    requires Ranked(t, level) && Closed(t, s0) && Cleared(t, level, s0, s1, above, n, MAX_DEPTH)
    ensures ClosedBelow(t, level, s1[n := Stopped], level(n)) && NoRunningRider(t, s1, n)
    ensures RunningIn(s0, n) ==> HopRuns(t, s1[n := Stopped], n)
  {
    forall c | t.parent(c) == Some(n)
      ensures !RunningIn(s1, c)
    {
      assert Near(t, c, n, MAX_DEPTH);
    }
    forall x | level(x) <= level(n)
      ensures StateIn(s1, x) == StateIn(s0, x)
    {
      if Near(t, x, n, MAX_DEPTH) {
        NearIsAbove(t, level, x, n, MAX_DEPTH);
      }
    }
  }

  lemma {:induction false} OrderOfAll(t: Tree, level: string -> nat, above: seq<string>, below: seq<string>, n: string)
    requires Ranked(t, level) && AllAbove(t, level, above, n) && RidersFirst(t, above) && Descending(level, below, level(n))
    ensures RidersFirst(t, above + ([n] + below))
  {
    var tail := [n] + below;
    forall i, j | 0 <= i < j < |tail|
      ensures level(tail[j]) < level(tail[i])
    {
      assert tail[j] == below[j - 1];
    }
    DescendingIsRidersFirst(t, level, tail, level(n) + 1);
    forall x, y | x in above && y in tail
      ensures t.parent(y) != Some(x)
    {
      AboveLevel(t, level, x, n);
      assert level(y) <= level(n);
    }
    RidersFirstAppend(t, above, tail);
  }

  lemma {:induction false} ClosedAfter(t: Tree, level: string -> nat, s0: States, s1: States, s: States, above: seq<string>, below: seq<string>, n: string, x: string)
    requires Ranked(t, level) && Closed(t, s0)
    requires Cleared(t, level, s0, s1, above, n, MAX_DEPTH) && Dropped(t, level, s1[n := Stopped], s, below, n, MAX_DEPTH)
    requires RunningIn(s, x) && t.parent(x).Some? && !OnEdge(t, x, n)
    ensures RunningIn(s, t.parent(x).value)
  {
    var p := t.parent(x).value;
    assert StateIn(s, x) == StateIn(s0, x);
    assert RunningIn(s0, p);
    assert p != n && p !in below;
    if Near(t, p, n, MAX_DEPTH) {
      NearMore(t, x, n, MAX_DEPTH);
    }
  }

  lemma {:induction false} NearMore(t: Tree, x: string, n: string, k: nat)
    requires t.parent(x).Some? && Near(t, t.parent(x).value, n, k)
    ensures Near(t, x, n, k + 1)
  {
  }

  lemma {:induction false} StoppedAll(t: Tree, level: string -> nat, s0: States, s1: States, s: States, above: seq<string>, below: seq<string>, n: string)
    requires Ranked(t, level) && Closed(t, s0)
    requires Cleared(t, level, s0, s1, above, n, MAX_DEPTH) && Dropped(t, level, s1[n := Stopped], s, below, n, MAX_DEPTH)
    ensures StopOutcome(t, s0, s, above + ([n] + below), n)
  {
    AfterBranch(t, level, s0, s1, above, n);
    OrderOfAll(t, level, above, below, n);
    forall x | RunningIn(s, x)
      ensures StateIn(s, x) == StateIn(s1[n := Stopped], x) == StateIn(s1, x) && x != n
    {
    }
    forall x {:trigger t.parent(x)} | RunningIn(s, x) && t.parent(x).Some? && !OnEdge(t, x, n)
      ensures RunningIn(s, t.parent(x).value)
    {
      ClosedAfter(t, level, s0, s1, s, above, below, n, x);
    }
  }

  // The running set stays closed exactly when no rider beyond the reach of the
  // walk was running on a hop that was stopped.
  lemma {:induction false} ClosedUnlessDeep(t: Tree, level: string -> nat, s0: States, s: States, done: seq<string>, n: string)
    requires Ranked(t, level) && StopOutcome(t, s0, s, done, n)
    ensures Closed(t, s) <==> forall x :: OnEdge(t, x, n) ==> !RunningIn(s0, x)
  {
    forall x | OnEdge(t, x, n)
      ensures StateIn(s, x) == StateIn(s0, x) && t.parent(x).Some? && !RunningIn(s, t.parent(x).value)
    {
      EdgeStays(t, level, s0, s, done, n, x);
    }
    if forall x :: OnEdge(t, x, n) ==> !RunningIn(s0, x) {
      forall x {:trigger t.parent(x)} | RunningIn(s, x) && t.parent(x).Some?
        ensures RunningIn(s, t.parent(x).value)
      {
        assert OnEdge(t, x, n) ==> !RunningIn(s0, x);
      }
    }
  }

  lemma {:induction false} EdgeStays(t: Tree, level: string -> nat, s0: States, s: States, done: seq<string>, n: string, x: string)
    requires Ranked(t, level) && StopOutcome(t, s0, s, done, n) && OnEdge(t, x, n)
    ensures StateIn(s, x) == StateIn(s0, x) && t.parent(x).Some? && !RunningIn(s, t.parent(x).value)
  {
    NearIsAbove(t, level, x, n, MAX_DEPTH + 1);
    if HiddenUnder(t, n, x, MAX_DEPTH) {
      HiddenIsLower(t, level, n, x, MAX_DEPTH);
    }
  }

  // Nothing is changed but to stop it.
  ghost predicate OnlyStops(s0: States, s: States) {
    forall x :: StateIn(s, x) == StateIn(s0, x) || StateIn(s, x).Stopped?
  }

  ghost predicate AllStopped(s: States, done: seq<string>) {
    forall x :: x in done ==> StateIn(s, x).Stopped?
  }

  lemma {:induction false} StoppedStay(s0: States, s: States, done: seq<string>)
    requires AllStopped(s0, done) && OnlyStops(s0, s)
    ensures AllStopped(s, done)
  {
  }

  // ----- The manager's view of the services -----

  class Services {
    const tree: Tree
    var state: States
    // The names uninstalled so far, in order.
    var log: seq<string>

    constructor (tree: Tree, state: States)
      ensures this.tree == tree && this.state == state && log == []
    {
      this.tree := tree;
      this.state := state;
      log := [];
    }

    predicate Running(n: string)
      reads this
    {
      RunningIn(state, n)
    }

    // A hop goes only when nothing runs on it, except at the end of the walk.
    method Uninstall(n: string, ghost atEnd: bool)
      requires atEnd || NoRunningRider(tree, state, n)
      modifies this
      ensures state == old(state)[n := Stopped] && log == old(log) + [n]
    {
      state := state[n := Stopped];
      log := log + [n];
    }

    // Stops everything above `name`, as far up as the depth allows. `done` is
    // what was uninstalled.
    method StopChildren(name: string, depth: nat, ghost level: string -> nat) returns (ghost done: seq<string>)
      requires Consistent(tree, level) && name in tree.names && depth <= MAX_DEPTH
      requires BranchClosed(tree, level, state, name)
      modifies this
      ensures log == old(log) + done
      ensures Cleared(tree, level, old(state), state, done, name, MAX_DEPTH - depth)
      ensures OnlyStops(old(state), state) && AllStopped(state, done)
      ensures depth < MAX_DEPTH ==> AllStopped(state, tree.children(name))
      decreases MAX_DEPTH - depth, 1
    {
      done := [];
      if depth >= MAX_DEPTH {
        return;
      }
      var cs := tree.children(name);
      ghost var k: nat := MAX_DEPTH - depth - 1;
      ProgressBegin(tree, level, state, cs, k, name);
      for n := 0 to |cs|
        invariant log == old(log) + done
        invariant Progress(tree, level, old(state), state, done, cs, n, k, name)
        invariant OnlyStops(old(state), state) && AllStopped(state, done) && AllStopped(state, cs[..n])
      {
        ghost var before := state;
        NextBranch(tree, level, old(state), state, done, cs, n, k, name);
        ghost var more := StopRider(name, cs, n, depth, level, old(state), done);
        StoppedStay(before, state, done);
        StoppedStay(before, state, cs[..n]);
        assert cs[..n + 1] == cs[..n] + [cs[n]];
        done := done + more;
      }
      assert cs[..|cs|] == cs;
      ProgressEnd(tree, level, old(state), state, done, cs, k, name);
    }

    // One turn of that loop.
    method StopRider(name: string, cs: seq<string>, n: nat, depth: nat, ghost level: string -> nat, ghost s0: States, ghost done: seq<string>)
      returns (ghost more: seq<string>)
      requires Consistent(tree, level) && name in tree.names && cs == tree.children(name) && n < |cs| && depth < MAX_DEPTH
      requires BranchClosed(tree, level, state, cs[n])
      requires Progress(tree, level, s0, state, done, cs, n, MAX_DEPTH - depth - 1, name)
      modifies this
      ensures log == old(log) + more
      ensures Progress(tree, level, s0, state, done + more, cs, n + 1, MAX_DEPTH - depth - 1, name)
      ensures OnlyStops(old(state), state) && AllStopped(state, more) && StateIn(state, cs[n]).Stopped?
      decreases MAX_DEPTH - depth, 0
    {
      var c := cs[n];
      ghost var k: nat := MAX_DEPTH - depth - 1;
      RiderOf(tree, level, cs, n, name);
      if StateIn(state, c).Stopped? {
        ProgressSkip(tree, level, s0, state, done, cs, n, k, name);
        assert done + [] == done;
        return [];
      }
      ghost var before := state;
      ghost var sub := StopChildren(c, depth + 1, level);
      ghost var between := state;
      RidersDown(tree, state, c, k);
      Uninstall(c, k == 0);
      ProgressStop(tree, level, s0, before, between, done, sub, cs, n, k, name);
      return sub + [c];
    }

    method StillNeeded(hop: string, except: string, ghost level: string -> nat) returns (r: bool)
      requires Consistent(tree, level) && hop in tree.names && except in tree.names
      ensures r <==> exists c :: tree.parent(c) == Some(hop) && c != except && StateIn(state, c) in {Started, Starting}
    {
      var cs := tree.children(hop);
      for k := 0 to |cs|
        invariant forall i :: 0 <= i < k && cs[i] != except ==> !Running(cs[i])
      {
        RiderOf(tree, level, cs, k, hop);
        if EqualFold(cs[k], except) {
          continue;
        }
        if Running(cs[k]) {
          return true;
        }
      }
      return false;
    }

    // Drops the hidden hops underneath a tunnel that is down.
    method StopHiddenParents(name: string, depth: nat, ghost level: string -> nat) returns (ghost done: seq<string>)
      requires Consistent(tree, level) && name in tree.names && depth <= MAX_DEPTH
      requires ClosedBelow(tree, level, state, level(name)) && !Running(name)
      modifies this
      ensures log == old(log) + done
      ensures Dropped(tree, level, old(state), state, done, name, MAX_DEPTH - depth)
      ensures OnlyStops(old(state), state) && AllStopped(state, done)
      decreases MAX_DEPTH - depth, 1
    {
      ghost var k: nat := MAX_DEPTH - depth;
      if depth >= MAX_DEPTH {
        NothingDropped(tree, level, state, name, k);
        return [];
      }
      var parent := tree.parent(name);
      if parent.None? || !tree.hidden(parent.value) {
        NothingDropped(tree, level, state, name, k);
        return [];
      }
      var hop := parent.value;
      if StateIn(state, hop).Stopped? {
        NothingDropped(tree, level, state, name, k);
        return [];
      }
      var needed := StillNeeded(hop, name, level);
      if needed {
        NothingDropped(tree, level, state, name, k);
        return [];
      }
      NoOtherRider(tree, state, hop, name);
      done := DropHidden(name, depth, level);
    }

    // Drops the hidden hop underneath, which carries nothing any more, and
    // goes on below it.
    method DropHidden(name: string, depth: nat, ghost level: string -> nat) returns (ghost done: seq<string>)
      requires Consistent(tree, level) && name in tree.names && depth < MAX_DEPTH
      requires tree.parent(name).Some? && tree.hidden(tree.parent(name).value)
      requires ClosedBelow(tree, level, state, level(name)) && NoRunningRider(tree, state, tree.parent(name).value)
      modifies this
      ensures log == old(log) + done
      ensures Dropped(tree, level, old(state), state, done, name, MAX_DEPTH - depth)
      ensures OnlyStops(old(state), state) && AllStopped(state, done)
      decreases MAX_DEPTH - depth, 0
    {
      var hop := tree.parent(name).value;
      Uninstall(hop, false);
      ClosedLower(tree, level, old(state), name);
      ghost var below := StopHiddenParents(hop, depth + 1, level);
      DroppedMore(tree, level, old(state), state, below, name, MAX_DEPTH - depth - 1);
      return [hop] + below;
    }

    method StopTunnel(name: string, ghost level: string -> nat) returns (ghost done: seq<string>)
      requires Consistent(tree, level) && name in tree.names && Closed(tree, state)
      modifies this
      ensures log == old(log) + done
      ensures StopOutcome(tree, old(state), state, done, name)
      ensures OnlyStops(old(state), state) && AllStopped(state, done) && AllStopped(state, [name] + tree.children(name))
    {
      ghost var above, s1 := StopBranch(name, level);
      ghost var between := state;
      ghost var below := StopHiddenParents(name, 0, level);
      StoppedStay(between, state, above);
      StoppedStay(between, state, [name] + tree.children(name));
      StoppedAll(tree, level, old(state), s1, state, above, below, name);
      OneLog(old(log), above, name, below);
      return above + ([name] + below);
    }

    method StopBranch(name: string, ghost level: string -> nat) returns (ghost above: seq<string>, ghost s1: States)
      requires Consistent(tree, level) && name in tree.names && Closed(tree, state)
      modifies this
      ensures log == old(log) + above + [name]
      ensures Cleared(tree, level, old(state), s1, above, name, MAX_DEPTH)
      ensures state == s1[name := Stopped] && ClosedBelow(tree, level, state, level(name))
      ensures OnlyStops(old(state), state) && AllStopped(state, above) && AllStopped(state, [name] + tree.children(name))
    {
      above := StopChildren(name, 0, level);
      s1 := state;
      AfterBranch(tree, level, old(state), state, above, name);
      Uninstall(name, false);
    }
  }

  lemma {:induction false} OneLog(log: seq<string>, above: seq<string>, n: string, below: seq<string>)
    ensures log + above + [n] + below == log + (above + ([n] + below))
  {
  }

  lemma {:induction false} RidersDown(t: Tree, s: States, c: string, k: nat)
    requires DownNear(t, s, c, k)
    ensures k == 0 || NoRunningRider(t, s, c)
  {
    if k > 0 {
      forall x | t.parent(x) == Some(c)
        ensures !RunningIn(s, x)
      {
        assert Near(t, x, c, k);
      }
    }
  }

  lemma {:induction false} ClosedLower(t: Tree, level: string -> nat, s: States, n: string)
    requires Ranked(t, level) && ClosedBelow(t, level, s, level(n)) && t.parent(n).Some?
    ensures ClosedBelow(t, level, s[t.parent(n).value := Stopped], level(t.parent(n).value))
  {
  }

  // ----- The hops of one chain -----

  // Each hop rides on the one before it.
  ghost predicate IsPath(t: Tree, order: seq<string>) {
    forall i :: 0 < i < |order| ==> t.parent(order[i]) == Some(order[i - 1])
  }

  // The hops of the chain that ends at `leaf`, bottom hop first.
  method HopOrder(t: Tree, leaf: string, ghost level: string -> nat) returns (order: seq<string>)
    requires Ranked(t, level)
    ensures 1 <= |order| <= MAX_DEPTH + 1 && order[|order| - 1] == leaf && IsPath(t, order)
    ensures level(leaf) <= MAX_DEPTH ==> t.parent(order[0]).None?
  {
    order := [leaf];
    var name := leaf;
    for i := 0 to MAX_DEPTH
      invariant |order| == i + 1 && order[0] == name && order[|order| - 1] == leaf && IsPath(t, order)
      invariant level(name) + i <= level(leaf)
    {
      var parent := t.parent(name);
      if parent.None? {
        return;
      }
      order := [parent.value] + order;
      name := parent.value;
    }
  }

  // The order in which a repair takes the hops down.
  function TopFirst(order: seq<string>): (r: seq<string>) {
    seq(|order|, i requires 0 <= i < |order| => order[|order| - 1 - i])
  }

  lemma {:induction false} PathRises(t: Tree, level: string -> nat, order: seq<string>, i: nat, j: nat)
    requires Ranked(t, level) && IsPath(t, order) && i < j < |order|
    ensures level(order[i]) < level(order[j])
    decreases j
  {
    assert t.parent(order[j]) == Some(order[j - 1]);
    if i < j - 1 {
      PathRises(t, level, order, i, j - 1);
    }
  }

  // Taking a chain down from the top takes riders down first.
  lemma {:induction false} TopFirstIsRidersFirst(t: Tree, level: string -> nat, order: seq<string>)
    requires Ranked(t, level) && IsPath(t, order)
    ensures RidersFirst(t, TopFirst(order))
  {
    var r := TopFirst(order);
    forall i, j | 0 <= i < j < |r|
      ensures t.parent(r[j]) != Some(r[i])
    {
      PathRises(t, level, order, |order| - 1 - j, |order| - 1 - i);
    }
  }
}
