// A chain too high for the walk of a stop: the tunnels five rides up keep
// running on a hop that is down.
module DeepChain {
  import opened Text
  import opened Forest
  import opened Stop

  // Tunnel names that ride on one another, the bottom one first.
  predicate ChainNames(ns: seq<string>) {
    && (forall n :: n in ns ==> n != "" && Trimmed(n))
    && (forall i, j :: 0 <= i < j < |ns| ==> !EqualFold(ns[i], ns[j]))
  }

  // Each tunnel but the first pins its endpoint through the one before it.
  function Pins(ns: seq<string>): (via: map<string, string>) {
    if |ns| <= 1 then map[] else Pins(ns[..|ns| - 1])[ns[|ns| - 1] := ns[|ns| - 2]]
  }

  function ChainListing(ns: seq<string>): (f: Forest) {
    Forest(ns, Pins(ns))
  }

  lemma {:induction false} FrontIsChain(ns: seq<string>)
    requires ChainNames(ns) && ns != []
    ensures ChainNames(ns[..|ns| - 1])
  {
    var front := ns[..|ns| - 1];
    assert forall i :: 0 <= i < |front| ==> front[i] == ns[i];
    forall n | n in front
      ensures n in ns
    {
    }
  }

  lemma {:induction false} PinsKeys(ns: seq<string>, n: string)
    requires n in Pins(ns)
    ensures exists i :: 1 <= i < |ns| && ns[i] == n
  {
    if n != ns[|ns| - 1] {
      PinsKeys(ns[..|ns| - 1], n);
      var i :| 1 <= i < |ns| - 1 && ns[..|ns| - 1][i] == n;
      assert ns[i] == n;
    }
  }

  lemma {:induction false} PinsOf(ns: seq<string>, i: nat)
    requires ChainNames(ns) && 1 <= i < |ns|
    ensures ns[i] in Pins(ns) && Pins(ns)[ns[i]] == ns[i - 1]
  {
    if i < |ns| - 1 {
      FrontIsChain(ns);
      PinsOf(ns[..|ns| - 1], i);
      assert !EqualFold(ns[i], ns[|ns| - 1]);
    }
  }

  lemma {:induction false} ListingOk(ns: seq<string>)
    requires ChainNames(ns)
    ensures NamesOk(ChainListing(ns))
  {
    forall n | n in Pins(ns)
      ensures n in ns
    {
      PinsKeys(ns, n);
    }
  }

  lemma {:induction false} HopOf(ns: seq<string>, i: nat)
    requires ChainNames(ns) && 1 <= i < |ns|
    ensures Parent(ChainListing(ns), ns[i]) == Some(ns[i - 1])
  {
    var p := ns[i - 1];
    PinsOf(ns, i);
    ListingOk(ns);
    assert p in ns;
    TrimId(p);
    FirstNamedFinds(ns, p);
    var q := FirstNamed(ns, p).value;
    TrimId(q);
    OneName(ChainListing(ns), p, q);
  }

  lemma {:induction false} NoOtherHop(ns: seq<string>, n: string)
    requires ChainNames(ns) && Parent(ChainListing(ns), n).Some?
    ensures exists i :: 1 <= i < |ns| && ns[i] == n
  {
    PinsKeys(ns, n);
  }

  // The place of a name in the chain.
  function Place(ns: seq<string>, n: string): (k: nat) {
    if ns == [] || ns[|ns| - 1] == n then |ns| else Place(ns[..|ns| - 1], n)
  }

  lemma {:induction false} PlaceOf(ns: seq<string>, i: nat)
    requires ChainNames(ns) && i < |ns|
    ensures Place(ns, ns[i]) == i + 1
  {
    if i < |ns| - 1 {
      assert !EqualFold(ns[i], ns[|ns| - 1]);
      FrontIsChain(ns);
      PlaceOf(ns[..|ns| - 1], i);
    }
  }

  lemma {:induction false} ChainIsConsistent(ns: seq<string>)
    requires ChainNames(ns)
    ensures Consistent(TreeOf(ChainListing(ns)), n => Place(ns, n))
  {
    var t := TreeOf(ChainListing(ns));
    ListingOk(ns);
    forall n {:trigger t.parent(n)} | t.parent(n).Some?
      ensures Place(ns, t.parent(n).value) < Place(ns, n)
    {
      assert t.parent(n) == Parent(ChainListing(ns), n);
      NoOtherHop(ns, n);
      var i :| 1 <= i < |ns| && ns[i] == n;
      HopOf(ns, i);
      PlaceOf(ns, i);
      PlaceOf(ns, i - 1);
    }
    ForestIsConsistent(ChainListing(ns), n => Place(ns, n));
  }

  lemma {:induction false} NearBottom(ns: seq<string>, i: nat, k: nat)
    requires ChainNames(ns) && 1 <= i < |ns|
    ensures Near(TreeOf(ChainListing(ns)), ns[i], ns[0], k) <==> i <= k
    decreases k
  {
    HopOf(ns, i);
    var t := TreeOf(ChainListing(ns));
    assert t.parent(ns[i]) == Some(ns[i - 1]);
    if i > 1 {
      assert !EqualFold(ns[0], ns[i - 1]);
      if k > 0 {
        NearBottom(ns, i - 1, k - 1);
      }
    }
  }

  function AllStarted(ns: seq<string>): (s: States) {
    map n | n in ns :: Started
  }

  lemma {:induction false} StartedIsClosed(ns: seq<string>)
    requires ChainNames(ns)
    ensures Closed(TreeOf(ChainListing(ns)), AllStarted(ns))
  {
    var t := TreeOf(ChainListing(ns));
    ChainIsConsistent(ns);
    forall n {:trigger t.parent(n)} | t.parent(n).Some?
      ensures t.parent(n).value in ns
    {
      assert t.parent(n).value in t.names;
    }
  }

  // A chain of six hops or more, all started: stopping the bottom one takes
  // down the four above it, and the next one keeps running on a stopped hop.
  lemma {:induction false} SixHopsAreTooMany(ns: seq<string>, s: States, done: seq<string>)
    requires ChainNames(ns) && |ns| >= MAX_DEPTH + 2
    requires StopOutcome(TreeOf(ChainListing(ns)), AllStarted(ns), s, done, ns[0])
    ensures OnEdge(TreeOf(ChainListing(ns)), ns[MAX_DEPTH + 1], ns[0])
    ensures RunningIn(s, ns[MAX_DEPTH + 1]) && !RunningIn(s, ns[MAX_DEPTH])
    ensures !Closed(TreeOf(ChainListing(ns)), s)
  {
    var t := TreeOf(ChainListing(ns));
    var level := n => Place(ns, n);
    var x := ns[MAX_DEPTH + 1];
    ChainIsConsistent(ns);
    NearBottom(ns, MAX_DEPTH + 1, MAX_DEPTH + 1);
    NearBottom(ns, MAX_DEPTH + 1, MAX_DEPTH);
    HopOf(ns, MAX_DEPTH + 1);
    assert t.parent(x) == Some(ns[MAX_DEPTH]);
    EdgeStays(t, level, AllStarted(ns), s, done, ns[0], x);
    assert RunningIn(AllStarted(ns), x);
  }

  const SIX_HOPS := ["a", "b", "c", "d", "e", "f"]

  lemma {:induction false} SixHopsAreNames()
    ensures ChainNames(SIX_HOPS)
  {
    var ns := SIX_HOPS;
    forall n | n in ns
      ensures n != "" && Trimmed(n)
    {
      assert |n| == 1 && 'a' <= n[0] <= 'f';
    }
    forall i, j | 0 <= i < j < |ns|
      ensures !EqualFold(ns[i], ns[j])
    {
      assert Lower(ns[i])[0] == ns[i][0] && Lower(ns[j])[0] == ns[j][0];
      assert ns[i][0] != ns[j][0];
    }
  }

  // The manager stops the bottom of six started hops.
  method StopSixHops() returns (services: Services, ghost t: Tree)
    ensures t == TreeOf(ChainListing(SIX_HOPS)) && services.tree == t
    ensures Closed(t, AllStarted(SIX_HOPS))
    ensures services.Running("f") && !services.Running("e") && !Closed(t, services.state)
  {
    var ns := SIX_HOPS;
    t := TreeOf(ChainListing(ns));
    SixHopsAreNames();
    ChainIsConsistent(ns);
    StartedIsClosed(ns);
    services := new Services(TreeOf(ChainListing(ns)), AllStarted(ns));
    ghost var done := services.StopTunnel(ns[0], n => Place(ns, n));
    SixHopsAreTooMany(ns, services.state, done);
    assert ns[MAX_DEPTH + 1] == "f" && ns[MAX_DEPTH] == "e";
  }
}
