// How deep the calls of Start nest: starting a tunnel starts the hop underneath
// before it does anything else, and the depth it passes on begins anew.
module Nesting {
  import opened Text
  import opened Forest
  import opened Stop
  import opened Start

  // The tunnel started by the k-th nested call when `n` is started: each call
  // loads the config, looks up the hop and asks, once, for its state, and only
  // a hop that is neither started nor starting is started in turn.
  function Nested(t: Tree, loads: string -> bool, world: World, n: string, asked: nat, k: nat): (r: Option<string>)
    decreases k
  {
    if k == 0 then Some(n)
    else if !loads(n) || t.parent(n).None? then None
    else
      var hop := t.parent(n).value;
      var s := world(asked, hop).state;
      if s == Some(Started) || s == Some(Starting) then None
      else Nested(t, loads, world, hop, asked + 1, k - 1)
  }

  // The hop k rides down.
  function Down(t: Tree, n: string, k: nat): (r: Option<string>)
    decreases k
  {
    if k == 0 then Some(n)
    else if t.parent(n).None? then None
    else Down(t, t.parent(n).value, k - 1)
  }

  // Nothing runs, and whatever pins its endpoint can be loaded.
  ghost predicate Idle(t: Tree, loads: string -> bool, world: World) {
    && (forall n :: t.parent(n).Some? ==> loads(n))
    && (forall q: nat, n :: world(q, n).state != Some(Started) && world(q, n).state != Some(Starting))
  }

  // Then the calls follow the pins.
  lemma {:induction false} NestedIsDown(t: Tree, loads: string -> bool, world: World, n: string, asked: nat, k: nat)
    requires Idle(t, loads, world)
    ensures Nested(t, loads, world, n, asked, k) == Down(t, n, k)
    decreases k
  {
    if k > 0 && t.parent(n).Some? {
      NestedIsDown(t, loads, world, t.parent(n).value, asked + 1, k - 1);
    }
  }

  // Whatever the world answers, with no cycle the nesting ends within the level.
  lemma {:induction false} NestingEnds(t: Tree, loads: string -> bool, world: World, level: string -> nat, n: string, asked: nat, k: nat)
    requires Ranked(t, level) && k > level(n)
    ensures !NestsTo(t, loads, world, n, asked, k)
    decreases k
  {
    if t.parent(n).Some? {
      NestingEnds(t, loads, world, level, t.parent(n).value, asked + 1, k - 1);
    }
  }

  // ----- Pins that run in a circle -----

  lemma {:induction false} DownAppend(t: Tree, n: string, i: nat, j: nat)
    ensures Down(t, n, i + j) == if Down(t, n, i).None? then None else Down(t, Down(t, n, i).value, j)
    decreases i
  {
    if i > 0 && t.parent(n).Some? {
      DownAppend(t, t.parent(n).value, i - 1, j);
    }
  }

  lemma {:induction false} DownFewer(t: Tree, n: string, i: nat, k: nat)
    requires i <= k && Down(t, n, k).Some?
    ensures Down(t, n, i).Some?
  {
    DownAppend(t, n, i, k - i);
  }

  // Rides that come back to where they were go on for ever.
  lemma {:induction false} CircleGoesOn(t: Tree, n: string, p: nat, k: nat)
    requires p > 0 && Down(t, n, p) == Some(n)
    ensures Down(t, n, k).Some?
    decreases k
  {
    if k <= p {
      DownFewer(t, n, k, p);
    } else {
      CircleGoesOn(t, n, p, k - p);
      DownAppend(t, n, p, k - p);
    }
  }

  // The hops passed on the first k rides.
  function Passed(t: Tree, n: string, k: nat): (path: seq<string>)
    requires Down(t, n, k).Some?
    ensures |path| == k
    decreases k
  {
    if k == 0 then [] else [t.parent(n).value] + Passed(t, t.parent(n).value, k - 1)
  }

  lemma {:induction false} PassedAt(t: Tree, n: string, k: nat, i: nat)
    requires Down(t, n, k).Some? && i < k
    ensures Down(t, n, i + 1) == Some(Passed(t, n, k)[i])
    decreases k
  {
    if i > 0 {
      PassedAt(t, t.parent(n).value, k - 1, i - 1);
    }
  }

  lemma {:induction false} PassedAreListed(t: Tree, n: string, k: nat)
    requires ParentsListed(t) && Down(t, n, k).Some?
    ensures forall x :: x in Passed(t, n, k) ==> x in t.names
    decreases k
  {
    if k > 0 {
      PassedAreListed(t, t.parent(n).value, k - 1);
    }
  }

  function Elements(s: seq<string>): (r: set<string>) {
    set x | x in s
  }

  lemma {:induction false} ElementsSize(s: seq<string>)
    ensures |Elements(s)| <= |s|
    ensures NoRepeats(s) ==> |Elements(s)| == |s|
  {
    if s != [] {
      var front, last := s[..|s| - 1], s[|s| - 1];
      ElementsSize(front);
      assert s == front + [last];
      assert Elements(s) == Elements(front) + {last};
      assert NoRepeats(s) ==> NoRepeats(front) && last !in front;
    }
  }

  lemma {:induction false} SubsetSize(a: set<string>, b: set<string>)
    requires a <= b
    ensures |a| <= |b|
  {
    if x :| x in a {
      SubsetSize(a - {x}, b - {x});
    }
  }

  // More rides than there are names pass some hop twice.
  lemma {:induction false} SomeHopTwice(t: Tree, n: string, k: nat)
    requires ParentsListed(t) && Down(t, n, k).Some? && k > |t.names|
    ensures !NoRepeats(Passed(t, n, k))
  {
    var path := Passed(t, n, k);
    PassedAreListed(t, n, k);
    ElementsSize(path);
    ElementsSize(t.names);
    SubsetSize(Elements(path), Elements(t.names));
  }

  // The pins lead on for k rides.
  predicate LeadsTo(t: Tree, n: string, k: nat) {
    Down(t, n, k).Some?
  }

  // The pins lead on for ever exactly when they lead on for one ride more than
  // there are names.
  lemma {:induction false} LeadsOnForEver(t: Tree, n: string)
    requires ParentsListed(t)
    ensures (forall k: nat :: LeadsTo(t, n, k)) <==> LeadsTo(t, n, |t.names| + 1)
  {
    var m := |t.names| + 1;
    if Down(t, n, m).Some? {
      var path := Passed(t, n, m);
      SomeHopTwice(t, n, m);
      var i, j :| 0 <= i < j < |path| && path[i] == path[j];
      PassedAt(t, n, m, i);
      PassedAt(t, n, m, j);
      forall k: nat
        ensures LeadsTo(t, n, k)
      {
        GoesOn(t, n, i + 1, j + 1, k);
      }
    }
  }

  lemma {:induction false} GoesOn(t: Tree, n: string, i: nat, j: nat, k: nat)
    requires i < j && Down(t, n, i).Some? && Down(t, n, i) == Down(t, n, j)
    ensures Down(t, n, k).Some?
  {
    if k <= i {
      DownFewer(t, n, k, i);
    } else {
      var x := Down(t, n, i).value;
      DownAppend(t, n, i, j - i);
      CircleGoesOn(t, x, j - i, k - i);
      DownAppend(t, n, i, k - i);
    }
  }

  // The calls nest k deep.
  predicate NestsTo(t: Tree, loads: string -> bool, world: World, n: string, asked: nat, k: nat) {
    Nested(t, loads, world, n, asked, k).Some?
  }

  // Starting a tunnel while nothing runs passes every bound of nesting exactly
  // when its pins lead on for one ride more than there are names.
  lemma {:induction false} StartNestsForEver(t: Tree, loads: string -> bool, world: World, n: string, asked: nat)
    requires ParentsListed(t) && Idle(t, loads, world)
    ensures (forall k: nat :: NestsTo(t, loads, world, n, asked, k)) <==> LeadsTo(t, n, |t.names| + 1)
  {
    LeadsOnForEver(t, n);
    forall k: nat
      ensures NestsTo(t, loads, world, n, asked, k) <==> LeadsTo(t, n, k)
    {
      NestedIsDown(t, loads, world, n, asked, k);
    }
    var m := |t.names| + 1;
    assert NestsTo(t, loads, world, n, asked, m) <==> LeadsTo(t, n, m);
  }

  // Two listed tunnels, each pinned on the other.
  predicate PinnedOnEachOther(f: Forest, a: string, b: string) {
    && NamesOk(f) && a in f.names && b in f.names
    && a in f.via && f.via[a] == b && b in f.via && f.via[b] == a
  }

  lemma {:induction false} PinFinds(f: Forest, n: string, p: string)
    requires NamesOk(f) && p in f.names && n in f.via && f.via[n] == p
    ensures Parent(f, n) == Some(p)
  {
    TrimId(p);
    FirstNamedFinds(f.names, p);
    var q := FirstNamed(f.names, p).value;
    TrimId(q);
    OneName(f, p, q);
  }

  // Starting either of them, while nothing runs, passes every bound.
  lemma {:induction false} MutualPinsNestForEver(f: Forest, a: string, b: string, loads: string -> bool, world: World, asked: nat, k: nat)
    requires PinnedOnEachOther(f, a, b) && Idle(TreeOf(f), loads, world)
    ensures NestsTo(TreeOf(f), loads, world, a, asked, k)
  {
    var t := TreeOf(f);
    PinFinds(f, a, b);
    PinFinds(f, b, a);
    assert t.parent(a) == Some(b) && t.parent(b) == Some(a);
    assert Down(t, b, 1) == Some(a);
    assert Down(t, a, 2) == Some(a);
    CircleGoesOn(t, a, 2, k);
    NestedIsDown(t, loads, world, a, asked, k);
  }
}
