// Which tunnel rides on which: the PinEndpointVia option of a tunnel names the
// tunnel underneath, letter case and surrounding blanks aside.
module Forest {
  import opened Text
  import PairNames

  // The listed names, and the PinEndpointVia text of every name that loads.
  datatype Forest = Forest(names: seq<string>, via: map<string, string>)

  // Listed names are tunnel names: no blank at either end, and the file system
  // that lists them does not tell letter case apart.
  predicate NamesOk(f: Forest) {
    && (forall n :: n in f.names ==> n != "" && Trimmed(n))
    && (forall i, j :: 0 <= i < j < |f.names| ==> !EqualFold(f.names[i], f.names[j]))
    && (forall n :: n in f.via ==> n in f.names)
  }

  function FirstNamed(names: seq<string>, via: string): (r: Option<string>) {
    if names == [] then None
    else if EqualFold(Trim(names[0]), via) then Some(names[0])
    else FirstNamed(names[1..], via)
  }

  function ParentOfConfig(f: Forest, pinned: string): (r: Option<string>) {
    var via := Trim(pinned);
    if via == "" then None else FirstNamed(f.names, via)
  }

  function Parent(f: Forest, name: string): (r: Option<string>) {
    if name in f.via then ParentOfConfig(f, f.via[name]) else None
  }

  predicate RidesOn(f: Forest, n: string, name: string) {
    !EqualFold(n, name) && n in f.via && EqualFold(Trim(f.via[n]), Trim(name))
  }

  function ChildrenAmong(f: Forest, names: seq<string>, name: string): (r: seq<string>) {
    if names == [] then []
    else
      var n := names[|names| - 1];
      ChildrenAmong(f, names[..|names| - 1], name) + if RidesOn(f, n, name) then [n] else []
  }

  function Children(f: Forest, name: string): (r: seq<string>) {
    ChildrenAmong(f, f.names, name)
  }

  method FindParent(f: Forest, pinned: string) returns (r: Option<string>)
    ensures r == ParentOfConfig(f, pinned)
  {
    var via := Trim(pinned);
    if via == "" {
      return None;
    }
    for i := 0 to |f.names|
      invariant FirstNamed(f.names, via) == FirstNamed(f.names[i..], via)
    {
      if EqualFold(Trim(f.names[i]), via) {
        return Some(f.names[i]);
      }
    }
    return None;
  }

  method ListChildren(f: Forest, name: string) returns (r: seq<string>)
    ensures r == Children(f, name)
  {
    var trimmed := Trim(name);
    r := [];
    for i := 0 to |f.names|
      invariant r == ChildrenAmong(f, f.names[..i], name)
    {
      var n := f.names[i];
      assert f.names[..i + 1][..i] == f.names[..i];
      if EqualFold(n, name) {
        continue;
      }
      if n !in f.via {
        continue;
      }
      if EqualFold(Trim(f.via[n]), trimmed) {
        r := r + [n];
      }
    }
    assert f.names[..|f.names|] == f.names;
  }

  // ----- The two lookups describe one relation -----

  lemma {:induction false} FirstNamedFinds(names: seq<string>, via: string)
    ensures FirstNamed(names, via).None? ==> forall n :: n in names ==> !EqualFold(Trim(n), via)
    ensures FirstNamed(names, via).Some? ==> FirstNamed(names, via).value in names && EqualFold(Trim(FirstNamed(names, via).value), via)
  {
    if names != [] {
      FirstNamedFinds(names[1..], via);
      assert names == [names[0]] + names[1..];
    }
  }

  lemma {:induction false} ChildrenAmongAre(f: Forest, names: seq<string>, name: string)
    ensures forall n :: n in ChildrenAmong(f, names, name) <==> n in names && RidesOn(f, n, name)
  {
    if names != [] {
      ChildrenAmongAre(f, names[..|names| - 1], name);
      assert names == names[..|names| - 1] + [names[|names| - 1]];
    }
  }

  lemma {:induction false} OneName(f: Forest, a: string, b: string)
    requires NamesOk(f) && a in f.names && b in f.names && EqualFold(a, b)
    ensures a == b
  {
    var i :| 0 <= i < |f.names| && f.names[i] == a;
    var j :| 0 <= j < |f.names| && f.names[j] == b;
  }

  // Looking up names the same pairs as listing the riders.
  lemma {:induction false} ChildIffParent(f: Forest, n: string, p: string)
    requires NamesOk(f) && p in f.names
    ensures n in Children(f, p) <==> n != p && Parent(f, n) == Some(p)
  {
    ChildrenAmongAre(f, f.names, p);
    TrimId(p);
    if n in f.via {
      var via := Trim(f.via[n]);
      FirstNamedFinds(f.names, via);
      if n in Children(f, p) {
        var q := FirstNamed(f.names, via).value;
        assert |via| == |Lower(via)| == |Lower(p)| == |p|;
        TrimId(q);
        OneName(f, p, q);
      } else if n != p && Parent(f, n) == Some(p) {
        if EqualFold(n, p) {
          OneName(f, n, p);
        }
      }
    }
  }

  // A tunnel rides on the one that its pin names, whatever the letter case and
  // the blanks around the pin.
  lemma {:induction false} PinNames(f: Forest, n: string, p: string)
    requires NamesOk(f) && p in f.names && n in f.via
    ensures Parent(f, n) == Some(p) <==> Lower(Trim(f.via[n])) == Lower(p)
  {
    var via := Trim(f.via[n]);
    TrimId(p);
    FirstNamedFinds(f.names, via);
    assert |Lower(via)| == |via| && |Lower(p)| == |p|;
    if FirstNamed(f.names, via).Some? {
      var q := FirstNamed(f.names, via).value;
      TrimId(q);
      if EqualFold(via, p) {
        OneName(f, p, q);
      }
    }
  }

  predicate NoRepeats(s: seq<string>) {
    forall i, j :: 0 <= i < j < |s| ==> s[i] != s[j]
  }

  lemma {:induction false} ChildrenOnce(f: Forest, names: seq<string>, name: string)
    requires NoRepeats(names)
    ensures NoRepeats(ChildrenAmong(f, names, name))
  {
    if names != [] {
      var front, last := names[..|names| - 1], names[|names| - 1];
      ChildrenOnce(f, front, name);
      ChildrenAmongAre(f, front, name);
      var r := ChildrenAmong(f, front, name);
      forall i | 0 <= i < |r|
        ensures r[i] != last
      {
        assert r[i] in r;
      }
    }
  }

  // ----- The relation as the ordering code uses it -----

  datatype Tree = Tree(
    names: seq<string>,
    parent: string -> Option<string>,
    children: string -> seq<string>,
    hidden: string -> bool)

  function TreeOf(f: Forest): (t: Tree) {
    Tree(f.names,
      (n: string) => Parent(f, n),
      (n: string) => Children(f, n),
      (n: string) => PairNames.IsHiddenHopName(n))
  }

  // Every hop has a smaller level than what rides on it: no cycles.
  ghost predicate Ranked(t: Tree, level: string -> nat) {
    forall n {:trigger t.parent(n)} :: t.parent(n).Some? ==> level(t.parent(n).value) < level(n)
  }

  ghost predicate ParentsListed(t: Tree) {
    forall n {:trigger t.parent(n)} :: t.parent(n).Some? ==> n in t.names && t.parent(n).value in t.names
  }

  ghost predicate ChildrenAgree(t: Tree) {
    && (forall n, p :: p in t.names ==> (n in t.children(p) <==> t.parent(n) == Some(p)))
    && (forall p :: NoRepeats(t.children(p)))
  }

  ghost predicate NamesApart(t: Tree) {
    forall a, b {:trigger EqualFold(a, b)} :: a in t.names && b in t.names && EqualFold(a, b) ==> a == b
  }

  ghost predicate Consistent(t: Tree, level: string -> nat) {
    Ranked(t, level) && ParentsListed(t) && ChildrenAgree(t) && NamesApart(t)
  }

  // Any listing without cycles is such a tree.
  lemma {:induction false} ForestIsConsistent(f: Forest, level: string -> nat)
    requires NamesOk(f) && Ranked(TreeOf(f), level)
    ensures Consistent(TreeOf(f), level)
  {
    var t := TreeOf(f);
    forall n | t.parent(n).Some?
      ensures n in t.names && t.parent(n).value in t.names
    {
      assert t.parent(n) == Parent(f, n);
      FirstNamedFinds(f.names, Trim(f.via[n]));
    }
    forall a, b | a in t.names && b in t.names && EqualFold(a, b)
      ensures a == b
    {
      OneName(f, a, b);
    }
    forall n, p | p in t.names
      ensures n in t.children(p) <==> t.parent(n) == Some(p)
    {
      ChildIffParent(f, n, p);
      assert t.parent(n) == Parent(f, n) && t.children(p) == Children(f, p);
    }
    forall p
      ensures NoRepeats(t.children(p))
    {
      assert NoRepeats(f.names);
      ChildrenOnce(f, f.names, p);
    }
  }

  // ----- Riding on a hop, directly or through others -----

  ghost predicate Above(t: Tree, level: string -> nat, n: string, hop: string)
    requires Ranked(t, level)
    decreases level(n)
  {
    t.parent(n).Some? && (t.parent(n).value == hop || Above(t, level, t.parent(n).value, hop))
  }

  lemma {:induction false} AboveLevel(t: Tree, level: string -> nat, n: string, hop: string)
    requires Ranked(t, level) && Above(t, level, n, hop)
    ensures level(hop) < level(n)
    decreases level(n)
  {
    if t.parent(n).value != hop {
      AboveLevel(t, level, t.parent(n).value, hop);
    }
  }

  lemma {:induction false} AboveTrans(t: Tree, level: string -> nat, a: string, b: string, c: string)
    requires Ranked(t, level) && Above(t, level, a, b) && Above(t, level, b, c)
    ensures Above(t, level, a, c)
    decreases level(a)
  {
    if t.parent(a).value != b {
      AboveTrans(t, level, t.parent(a).value, b, c);
    }
  }

  // In the branch of a hop: the hop itself or above it.
  ghost predicate InBranch(t: Tree, level: string -> nat, n: string, hop: string)
    requires Ranked(t, level)
  {
    n == hop || Above(t, level, n, hop)
  }

  // Whatever rides above a hop is in the branch of one of its riders.
  lemma {:induction false} BranchOf(t: Tree, level: string -> nat, n: string, hop: string) returns (c: string)
    requires Consistent(t, level) && Above(t, level, n, hop)
    ensures t.parent(c) == Some(hop) && c in t.children(hop) && InBranch(t, level, n, c)
    decreases level(n)
  {
    if t.parent(n).value == hop {
      c := n;
    } else {
      c := BranchOf(t, level, t.parent(n).value, hop);
    }
  }

  // The branches of two riders of one hop have nothing in common.
  lemma {:induction false} BranchesApart(t: Tree, level: string -> nat, n: string, a: string, b: string)
    requires Ranked(t, level)
    requires t.parent(a).Some? && t.parent(a) == t.parent(b)
    requires InBranch(t, level, n, a) && InBranch(t, level, n, b)
    ensures a == b
    decreases level(n)
  {
    if n == a && n != b {
      NotAboveSibling(t, level, a, b);
    } else if n == b && n != a {
      NotAboveSibling(t, level, b, a);
    } else if n != a {
      BranchesApart(t, level, t.parent(n).value, a, b);
    }
  }

  lemma {:induction false} NotAboveSibling(t: Tree, level: string -> nat, a: string, b: string)
    requires Ranked(t, level)
    requires t.parent(a).Some? && t.parent(a) == t.parent(b)
    ensures !Above(t, level, a, b)
  {
    if Above(t, level, a, b) {
      var hop := t.parent(a).value;
      if hop != b {
        AboveLevel(t, level, hop, b);
      }
    }
  }
}
