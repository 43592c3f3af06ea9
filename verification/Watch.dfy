// The watch over a raised chain: it repairs an unhealthy chain, at most every
// 25 seconds, and every five minutes once twenty repairs in a row did not help.
module Watch {
  import opened Text

  // Times in milliseconds.
  const REPAIR_GRACE: int := 25000
  const SLOW_REPAIR_GRACE: int := 300000
  const MAX_REPAIRS: nat := 20

  // One turn of the loop: what the health check said, the clock when the grace
  // is checked and the clock after the repair, if one is made.
  datatype Tick = Tick(healthy: bool, checkedAt: int, repairedAt: int)

  datatype Watch = Watch(failures: nat, slow: bool, lastRepair: Option<int>)

  const BEGIN := Watch(0, false, None)

  predicate Due(w: Watch, t: Tick) {
    var grace := if w.slow then SLOW_REPAIR_GRACE else REPAIR_GRACE;
    w.lastRepair.None? || t.checkedAt - w.lastRepair.value >= grace
  }

  predicate Repairs(w: Watch, t: Tick) {
    !t.healthy && Due(w, t)
  }

  function Step(w: Watch, t: Tick): (r: Watch) {
    if t.healthy then Watch(0, false, w.lastRepair)
    else if !Due(w, t) then w
    else Watch(w.failures + 1, w.slow || w.failures + 1 >= MAX_REPAIRS, Some(t.repairedAt))
  }

  function Run(w: Watch, ticks: seq<Tick>): (r: Watch) {
    if ticks == [] then w else Step(Run(w, ticks[..|ticks| - 1]), ticks[|ticks| - 1])
  }

  // The ticks that led to a repair, in order.
  function RepairsIn(w: Watch, ticks: seq<Tick>): (r: seq<Tick>) {
    if ticks == [] then []
    else
      var front, last := ticks[..|ticks| - 1], ticks[|ticks| - 1];
      RepairsIn(w, front) + if Repairs(Run(w, front), last) then [last] else []
  }

  // The loop over any finite run of ticks.
  method ChainWatch(ticks: seq<Tick>) returns (w: Watch, repairs: seq<Tick>)
    ensures w == Run(BEGIN, ticks)
    ensures repairs == RepairsIn(BEGIN, ticks)
  {
    var failures := 0;
    var slow := false;
    var lastRepair: Option<int> := None;
    repairs := [];
    for i := 0 to |ticks|
      invariant Watch(failures, slow, lastRepair) == Run(BEGIN, ticks[..i])
      invariant repairs == RepairsIn(BEGIN, ticks[..i])
    {
      var t := ticks[i];
      assert ticks[..i + 1][..i] == ticks[..i];
      if t.healthy {
        failures := 0;
        slow := false;
        continue;
      }
      var grace := REPAIR_GRACE;
      if slow {
        grace := SLOW_REPAIR_GRACE;
      }
      if lastRepair.Some? && t.checkedAt - lastRepair.value < grace {
        continue;
      }
      failures := failures + 1;
      repairs := repairs + [t];
      lastRepair := Some(t.repairedAt);
      if failures >= MAX_REPAIRS && !slow {
        slow := true;
      }
    }
    assert ticks[..|ticks|] == ticks;
    w := Watch(failures, slow, lastRepair);
  }

  // ----- What the counters mean -----

  // How many ticks there are up to and including the last healthy one.
  function SpellStart(ticks: seq<Tick>): (k: nat)
    ensures k <= |ticks|
  {
    if ticks == [] then 0
    else if ticks[|ticks| - 1].healthy then |ticks|
    else SpellStart(ticks[..|ticks| - 1])
  }

  function BeforeSpell(ticks: seq<Tick>): (r: seq<Tick>) {
    ticks[..SpellStart(ticks)]
  }

  // The unhealthy ticks the run ends with.
  function Spell(ticks: seq<Tick>): (r: seq<Tick>) {
    ticks[SpellStart(ticks)..]
  }

  lemma {:induction false} SpellIsUnhealthy(ticks: seq<Tick>)
    ensures Unhealthy(Spell(ticks))
  {
    if ticks != [] && !ticks[|ticks| - 1].healthy {
      var front := ticks[..|ticks| - 1];
      SpellIsUnhealthy(front);
      assert Spell(ticks) == Spell(front) + [ticks[|ticks| - 1]];
    }
  }

  lemma {:induction false} BeforeSpellIsHealthy(ticks: seq<Tick>)
    ensures
      var w := Run(BEGIN, BeforeSpell(ticks));
      w == Watch(0, false, w.lastRepair)
  {
    if ticks != [] {
      if ticks[|ticks| - 1].healthy {
        assert BeforeSpell(ticks) == ticks;
      } else {
        var front := ticks[..|ticks| - 1];
        assert BeforeSpell(ticks) == BeforeSpell(front);
        BeforeSpellIsHealthy(front);
      }
    }
  }

  lemma {:induction false} RunAppend(w: Watch, a: seq<Tick>, b: seq<Tick>)
    ensures Run(w, a + b) == Run(Run(w, a), b)
    decreases |b|
  {
    if b == [] {
      assert a + b == a;
    } else {
      RunAppend(w, a, b[..|b| - 1]);
      assert (a + b)[..|a + b| - 1] == a + b[..|b| - 1];
    }
  }

  // `failures` counts the repairs since the last healthy check, and the watch
  // is slow exactly from the twentieth on.
  lemma {:induction false} FailuresInSpell(ticks: seq<Tick>)
    ensures
      var w := Run(BEGIN, ticks);
      && w.failures == |RepairsIn(Run(BEGIN, BeforeSpell(ticks)), Spell(ticks))|
      && (w.slow <==> w.failures >= MAX_REPAIRS)
  {
    var before, spell := BeforeSpell(ticks), Spell(ticks);
    assert before + spell == ticks;
    RunAppend(BEGIN, before, spell);
    BeforeSpellIsHealthy(ticks);
    SpellIsUnhealthy(ticks);
    IdleInSpell(Run(BEGIN, before).lastRepair, spell);
  }

  // The time kept is when the last repair of the whole run ended, healthy checks
  // in between or not.
  lemma {:induction false} LastRepairEnded(ticks: seq<Tick>)
    ensures
      var rs := RepairsIn(BEGIN, ticks);
      Run(BEGIN, ticks).lastRepair == if rs == [] then None else Some(rs[|rs| - 1].repairedAt)
  {
    if ticks != [] {
      LastRepairEnded(ticks[..|ticks| - 1]);
    }
  }

  // The watch never gives up: an unhealthy tick is repaired unless a repair
  // ended within the grace that goes with the repairs made in this spell.
  lemma {:induction false} NeverGivesUp(ticks: seq<Tick>, t: Tick)
    requires !t.healthy
    ensures
      var rs := RepairsIn(BEGIN, ticks);
      var made := |RepairsIn(Run(BEGIN, BeforeSpell(ticks)), Spell(ticks))|;
      RepairsIn(BEGIN, ticks + [t]) == rs + [t] <==>
        rs == [] || t.checkedAt - rs[|rs| - 1].repairedAt >= (if made >= MAX_REPAIRS then SLOW_REPAIR_GRACE else REPAIR_GRACE)
  {
    FailuresInSpell(ticks);
    LastRepairEnded(ticks);
    assert (ticks + [t])[..|ticks|] == ticks;
    assert |RepairsIn(BEGIN, ticks) + [t]| == |RepairsIn(BEGIN, ticks)| + 1;
  }

  // ----- How often a chain that stays broken is repaired -----

  ghost predicate Unhealthy(ticks: seq<Tick>) {
    forall i :: 0 <= i < |ticks| ==> !ticks[i].healthy
  }

  // The least idle time that k repairs in a row need.
  function LeastIdle(k: nat): (r: int)
    requires k >= 1
  {
    if k <= MAX_REPAIRS then REPAIR_GRACE * (k - 1)
    else REPAIR_GRACE * (MAX_REPAIRS - 1) + SLOW_REPAIR_GRACE * (k - MAX_REPAIRS)
  }

  // The time between the end of each repair and the start of the next.
  function Idle(repairs: seq<Tick>): (r: int) {
    if |repairs| <= 1 then 0
    else Idle(repairs[..|repairs| - 1]) + repairs[|repairs| - 1].checkedAt - repairs[|repairs| - 2].repairedAt
  }

  lemma {:induction false} LeastIdleStep(k: nat)
    requires k >= 1
    ensures LeastIdle(1) == 0
    ensures LeastIdle(k + 1) == LeastIdle(k) + if k >= MAX_REPAIRS then SLOW_REPAIR_GRACE else REPAIR_GRACE
  {
  }

  lemma {:induction false} IdleSnoc(rs: seq<Tick>, t: Tick)
    requires rs != []
    ensures Idle(rs + [t]) == Idle(rs) + t.checkedAt - rs[|rs| - 1].repairedAt
  {
    assert (rs + [t])[..|rs|] == rs;
  }

  lemma {:induction false} IdleInSpell(last: Option<int>, ticks: seq<Tick>)
    requires Unhealthy(ticks)
    ensures
      var w := Run(Watch(0, false, last), ticks);
      var rs := RepairsIn(Watch(0, false, last), ticks);
      && w.failures == |rs| && (w.slow <==> w.failures >= MAX_REPAIRS)
      && (rs != [] ==> w.lastRepair == Some(rs[|rs| - 1].repairedAt) && Idle(rs) >= LeastIdle(|rs|))
  {
    if ticks != [] {
      var front, t := ticks[..|ticks| - 1], ticks[|ticks| - 1];
      IdleInSpell(last, front);
      var w := Run(Watch(0, false, last), front);
      var rs := RepairsIn(Watch(0, false, last), front);
      if Repairs(w, t) {
        LeastIdleStep(if rs == [] then 1 else |rs|);
        if rs != [] {
          IdleSnoc(rs, t);
        }
      } else {
        assert rs + [] == rs;
      }
    }
  }

  ghost predicate ClockForward(rs: seq<Tick>) {
    forall i :: 0 <= i < |rs| ==> rs[i].checkedAt <= rs[i].repairedAt
  }

  lemma {:induction false} IdleIsElapsed(rs: seq<Tick>)
    requires ClockForward(rs) && rs != []
    ensures rs[|rs| - 1].checkedAt - rs[0].checkedAt >= Idle(rs)
  {
    if |rs| > 1 {
      IdleIsElapsed(rs[..|rs| - 1]);
    }
  }

  // In any run: the repairs of the unhealthy spell it ends with are spread out
  // over at least the idle time their number calls for.
  lemma {:induction false} RepairsAreSpread(ticks: seq<Tick>)
    ensures
      var rs := RepairsIn(Run(BEGIN, BeforeSpell(ticks)), Spell(ticks));
      && (rs != [] ==> Idle(rs) >= LeastIdle(|rs|))
      && (rs != [] && ClockForward(rs) ==> rs[|rs| - 1].checkedAt - rs[0].checkedAt >= LeastIdle(|rs|))
  {
    var before, spell := BeforeSpell(ticks), Spell(ticks);
    var w := Run(BEGIN, before);
    BeforeSpellIsHealthy(ticks);
    SpellIsUnhealthy(ticks);
    IdleInSpell(w.lastRepair, spell);
    var rs := RepairsIn(w, spell);
    if rs != [] && ClockForward(rs) {
      IdleIsElapsed(rs);
    }
  }
}
