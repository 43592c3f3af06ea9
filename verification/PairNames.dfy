// The names of a chain pair: the visible tunnel and its hidden outer hop.
module PairNames {
  import opened Text
  import opened Decimal
  import opened Names

  const PAIR_BASE := "warpam"
  const HIDDEN_SUFFIX := "-hop1"
  const HIDDEN_PREFIX := "hop1-"
  const LEGACY_INNER := "hop2-amnezia"
  const LEGACY_OUTER := "hop1-warp"
  const PAIR_LIMIT: nat := 1000
  const FALLBACK := PAIR_BASE + "-new"

  function HiddenHopName(visible: string): (r: string) {
    if EqualFold(Trim(visible), LEGACY_INNER) then LEGACY_OUTER else Trim(visible) + HIDDEN_SUFFIX
  }

  predicate IsHiddenHopName(name: string) {
    var lower := Lower(Trim(name));
    HasSuffix(lower, HIDDEN_SUFFIX) || HasPrefix(lower, HIDDEN_PREFIX)
  }

  lemma {:induction false} TrimWithTail(s: string, tail: string)
    requires Trimmed(s) && tail != [] && !IsSpace(tail[0]) && !IsSpace(tail[|tail| - 1])
    ensures Trim(s + tail) == s + tail
  {
    TrimId(s + tail);
  }

  // The name given to an outer hop is one the interface hides.
  lemma {:induction false} HiddenHopIsHidden(visible: string)
    ensures IsHiddenHopName(HiddenHopName(visible))
  {
    var r := HiddenHopName(visible);
    if EqualFold(Trim(visible), LEGACY_INNER) {
      TrimId(r);
      assert Lower(r)[..5] == HIDDEN_PREFIX;
    } else {
      TrimWithTail(Trim(visible), HIDDEN_SUFFIX);
      assert Lower(r)[|r| - 5..] == HIDDEN_SUFFIX;
    }
  }

  // ----- The next free pair -----

  // A name and the name of its hidden hop are free when no taken name is
  // either of them, letter case and surrounding blanks aside.
  predicate IsFree(taken: seq<string>, candidate: string) {
    forall t :: t in taken ==> !Blocks(t, candidate)
  }

  predicate Blocks(taken: string, candidate: string) {
    var t := Lower(Trim(taken));
    t == Lower(candidate) || t == Lower(HiddenHopName(candidate))
  }

  // warpam, warpam1, ..., warpam999
  function Candidate(i: nat): (r: string) {
    if i == 0 then PAIR_BASE else PAIR_BASE + Itoa(i)
  }

  predicate NoneBelow(free: nat -> bool, n: nat) {
    forall i: nat :: i < n ==> !free(i)
  }

  predicate NoneFree(taken: seq<string>, n: nat) {
    forall i: nat :: i < n ==> !IsFree(taken, Candidate(i))
  }

  // `i` is the lowest free candidate, or the limit when there is none.
  ghost predicate IsNextPair(taken: seq<string>, name: string, i: nat) {
    && i <= PAIR_LIMIT && NoneFree(taken, i)
    && if i < PAIR_LIMIT then name == Candidate(i) && IsFree(taken, name) else name == FALLBACK
  }

  method NextPairName(taken: seq<string>) returns (name: string, ghost index: nat)
    ensures IsNextPair(taken, name, index)
    ensures name == FALLBACK || IsFree(taken, name)
    ensures |taken| < PAIR_LIMIT ==> name != FALLBACK && ValidName(name) && ValidName(HiddenHopName(name))
  {
    var used := UsedNames(taken);
    var free := (i: nat) => Unused(used, i);
    var i := FirstFree(free, PAIR_LIMIT);
    forall j: nat | j < i
      ensures !IsFree(taken, Candidate(j))
    {
      assert !free(j);
      FreeInSet(taken, used, Candidate(j));
    }
    FreeInSet(taken, used, Candidate(i));
    index := i;
    name := if i < PAIR_LIMIT then Candidate(i) else FALLBACK;
    if |taken| < PAIR_LIMIT {
      NextPairPromise(taken, name, i);
    }
  }

  // The closure `free`, asked about the i-th candidate.
  predicate Unused(used: set<string>, i: nat) {
    var candidate := Candidate(i);
    Lower(candidate) !in used && Lower(HiddenHopName(candidate)) !in used
  }

  method FirstFree(free: nat -> bool, limit: nat) returns (i: nat)
    ensures i <= limit && NoneBelow(free, i) && (i < limit ==> free(i))
  {
    for k := 0 to limit
      invariant NoneBelow(free, k)
    {
      if free(k) {
        return k;
      }
    }
    return limit;
  }

  ghost function UsedSet(taken: seq<string>): (used: set<string>) {
    set k | 0 <= k < |taken| :: Lower(Trim(taken[k]))
  }

  method UsedNames(taken: seq<string>) returns (used: set<string>)
    ensures used == UsedSet(taken)
  {
    used := {};
    for i := 0 to |taken|
      invariant used == set k | 0 <= k < i :: Lower(Trim(taken[k]))
    {
      used := used + {Lower(Trim(taken[i]))};
    }
  }

  lemma {:induction false} FreeInSet(taken: seq<string>, used: set<string>, candidate: string)
    requires used == UsedSet(taken)
    ensures IsFree(taken, candidate) <==> Lower(candidate) !in used && Lower(HiddenHopName(candidate)) !in used
  {
    if IsFree(taken, candidate) {
      if Lower(candidate) in used {
        var k :| 0 <= k < |taken| && Lower(Trim(taken[k])) == Lower(candidate);
        assert Blocks(taken[k], candidate);
      }
      if Lower(HiddenHopName(candidate)) in used {
        var k :| 0 <= k < |taken| && Lower(Trim(taken[k])) == Lower(HiddenHopName(candidate));
        assert Blocks(taken[k], candidate);
      }
    } else {
      var t :| t in taken && Blocks(t, candidate);
      assert Lower(Trim(t)) in used;
    }
  }

  // ----- One taken name blocks one candidate -----

  lemma {:induction false} CandidateText(i: nat)
    ensures |Candidate(i)| >= 6 && Candidate(i)[..6] == PAIR_BASE
    ensures Candidate(i)[6..] == if i == 0 then "" else Itoa(i)
    ensures forall k :: 6 <= k < |Candidate(i)| ==> IsDigit(Candidate(i)[k])
    ensures Lower(Candidate(i)) == Candidate(i)
    ensures HiddenHopName(Candidate(i)) == Candidate(i) + HIDDEN_SUFFIX
  {
    var c := Candidate(i);
    var digits := if i == 0 then "" else Itoa(i);
    assert c == PAIR_BASE + digits;
    forall k | 6 <= k < |c|
      ensures IsDigit(c[k])
    {
      assert c[k] == digits[k - 6];
    }
    assert c[0] == 'w' && !IsSpace(c[0]) && !IsSpace(c[|c| - 1]);
    TrimId(c);
    assert Lower(c)[0] == 'w' && Lower(LEGACY_INNER)[0] == 'h';
  }

  lemma {:induction false} CandidateInjective(i: nat, j: nat)
    requires Candidate(i) == Candidate(j)
    ensures i == j
  {
    CandidateText(i);
    CandidateText(j);
    if i != 0 && j != 0 {
      ItoaInjective(i, j);
    }
  }

  // No candidate is the hidden hop of another: it has a digit where that has the dash.
  lemma {:induction false} CandidateIsNotHidden(i: nat, j: nat)
    ensures Candidate(i) != Candidate(j) + HIDDEN_SUFFIX
  {
    CandidateText(i);
    CandidateText(j);
    var n := |Candidate(j)|;
    var h := Candidate(j) + HIDDEN_SUFFIX;
    assert h[n] == '-' && n >= 6;
    assert n < |Candidate(i)| ==> Candidate(i)[n] != h[n];
  }

  lemma {:induction false} LowerTail(s: string)
    requires Lower(s) == s
    ensures Lower(s + HIDDEN_SUFFIX) == s + HIDDEN_SUFFIX
  {
    var h := s + HIDDEN_SUFFIX;
    forall k | 0 <= k < |h|
      ensures Lower(h)[k] == h[k]
    {
      if k < |s| {
        assert h[k] == s[k] == Lower(s)[k];
      }
    }
  }

  lemma {:induction false} BlocksOne(t: string, i: nat, j: nat)
    requires Blocks(t, Candidate(i)) && Blocks(t, Candidate(j))
    ensures i == j
  {
    CandidateText(i);
    CandidateText(j);
    LowerTail(Candidate(i));
    LowerTail(Candidate(j));
    CandidateIsNotHidden(i, j);
    CandidateIsNotHidden(j, i);
    var a, b := Candidate(i), Candidate(j);
    if a + HIDDEN_SUFFIX == b + HIDDEN_SUFFIX {
      assert (a + HIDDEN_SUFFIX)[..|a|] == a && (b + HIDDEN_SUFFIX)[..|b|] == b;
    }
    CandidateInjective(i, j);
  }

  // ----- Pigeonhole -----

  ghost function Blocked(taken: seq<string>, n: nat): (r: set<nat>) {
    set i: nat | i < n && !IsFree(taken, Candidate(i))
  }

  lemma {:induction false} BlockedAreFew(taken: seq<string>, n: nat)
    ensures |Blocked(taken, n)| <= |taken|
  {
    if taken != [] {
      var front, last := taken[..|taken| - 1], taken[|taken| - 1];
      BlockedAreFew(front, n);
      assert taken == front + [last];
      forall i, j | i in Blocked(taken, n) - Blocked(front, n) && j in Blocked(taken, n) - Blocked(front, n)
        ensures i == j
      {
        BlockedByLast(front, last, i);
        BlockedByLast(front, last, j);
        BlocksOne(last, i, j);
      }
      OneMore(Blocked(taken, n), Blocked(front, n));
    }
  }

  lemma {:induction false} BlockedByLast(front: seq<string>, last: string, i: nat)
    requires !IsFree(front + [last], Candidate(i)) && IsFree(front, Candidate(i))
    ensures Blocks(last, Candidate(i))
  {
  }

  lemma {:induction false} OneMore(all: set<nat>, fewer: set<nat>)
    requires forall i, j :: i in all - fewer && j in all - fewer ==> i == j
    ensures |all| <= |fewer| + 1
  {
    if i :| i in all - fewer {
      assert forall j :: j in all && j !in fewer ==> j in all - fewer;
      Subset(all, fewer + {i});
    } else {
      assert forall j :: j in all ==> j in fewer || j in all - fewer;
      Subset(all, fewer);
    }
  }

  lemma {:induction false} Subset(a: set<nat>, b: set<nat>)
    requires a <= b
    ensures |a| <= |b|
  {
    if x :| x in a {
      Subset(a - {x}, b - {x});
    }
  }

  lemma {:induction false} FullSet(s: set<nat>, n: nat)
    requires forall i: nat :: i in s <==> i < n
    ensures |s| == n
    decreases n
  {
    if n == 0 {
      assert s == {};
    } else {
      FullSet(s - {n - 1}, n - 1);
    }
  }

  // With fewer than n names taken, one of the first n candidates is free.
  lemma {:induction false} SomeCandidateIsFree(taken: seq<string>, n: nat)
    requires |taken| < n
    ensures !NoneFree(taken, n)
  {
    BlockedAreFew(taken, n);
    if NoneFree(taken, n) {
      FullSet(Blocked(taken, n), n);
    }
  }

  // ----- Both names of a pair are valid tunnel names -----

  lemma {:induction false} ShortNameIsValid(name: string)
    requires 5 <= |name| <= 32 && forall k :: 0 <= k < |name| ==> NameChar(name[k])
    ensures ValidName(name)
  {
    forall k | 0 <= k < |name|
      ensures !SpecialChar(name[k])
    {
      assert NameChar(name[k]);
    }
    forall r | r in RESERVED
      ensures !EqualFold(name, r)
    {
      assert |r| <= 4;
      assert |Lower(name)| == |name| && |Lower(r)| == |r|;
    }
  }

  lemma {:induction false} PairNamesAreValid(i: nat)
    requires i < 1000
    ensures ValidName(Candidate(i)) && ValidName(HiddenHopName(Candidate(i)))
  {
    CandidateText(i);
    ItoaLength(i);
    var c := Candidate(i);
    var base := PAIR_BASE;
    forall k | 0 <= k < |c|
      ensures NameChar(c[k])
    {
      if k < 6 {
        assert c[k] == c[..6][k] == base[k];
      }
    }
    ShortNameIsValid(c);
    var h := c + HIDDEN_SUFFIX;
    var tail := HIDDEN_SUFFIX;
    forall k | 0 <= k < |h|
      ensures NameChar(h[k])
    {
      if k >= |c| {
        assert h[k] == tail[k - |c|];
      }
    }
    ShortNameIsValid(h);
  }

  // The promise of the allocator: with fewer than 1000 names taken its answer
  // is the lowest free pair, never the fallback, and both names are valid.
  lemma {:induction false} NextPairPromise(taken: seq<string>, name: string, i: nat)
    requires |taken| < PAIR_LIMIT && IsNextPair(taken, name, i)
    ensures i < PAIR_LIMIT && name == Candidate(i) && name != FALLBACK
    ensures forall t :: t in taken ==> !EqualFold(Trim(t), name) && !EqualFold(Trim(t), HiddenHopName(name))
    ensures ValidName(name) && ValidName(HiddenHopName(name))
  {
    SomeCandidateIsFree(taken, PAIR_LIMIT);
    PairNamesAreValid(i);
    CandidateText(i);
    var fallback := FALLBACK;
    assert fallback[6] == '-';
    forall t | t in taken
      ensures !EqualFold(Trim(t), name) && !EqualFold(Trim(t), HiddenHopName(name))
    {
      assert !Blocks(t, name);
    }
  }
}
