// The periodic scheduler of src/lib/pclb.c as a function on the list of its callbacks, and
// when a callback fires over a whole run.

module SchedulerModel {
  import opened Common

  // timer_data_type has 64 bits.
  const TIMER := 0x1_0000_0000_0000_0000

  // The time a pass accounts for: what it was called with, or what has passed since the last one
  function PassTime(ms: nat, now: nat, last: nat): (d: nat)
    requires ms < CLOCK
    ensures d < CLOCK
  {
    if ms == 0 then (now - last) % CLOCK else ms
  }

  // The time that is noted after a pass, where the clock is read again
  function NextTime(ms: nat, now: nat, last: nat): (t: nat)
    requires ms < CLOCK && now < CLOCK
    ensures t < CLOCK
  {
    if ms == 0 then now else (last + ms) % CLOCK
  }

  // One call of pclb_task: the time it is called with, and what the clock shows when it is read
  // for the pass and for the note, if it is.
  datatype Call = Call(ms: nat, t1: nat, t2: nat)

  ghost predicate InClock(calls: seq<Call>) {
    forall i :: 0 <= i < |calls| ==> calls[i].ms < CLOCK && calls[i].t1 < CLOCK && calls[i].t2 < CLOCK
  }

  function LastTime(calls: seq<Call>, start: nat): (t: nat)
    requires InClock(calls) && start < CLOCK
    ensures t < CLOCK
  {
    if calls == [] then start
    else
      var c := calls[|calls| - 1];
      NextTime(c.ms, c.t2, LastTime(calls[..|calls| - 1], start))
  }

  // The time that all passes together account for, and what passes between the two readings
  function AccountedFor(calls: seq<Call>, start: nat): nat
    requires InClock(calls) && start < CLOCK
  {
    if calls == [] then 0
    else
      var c, before := calls[|calls| - 1], calls[..|calls| - 1];
      AccountedFor(before, start) + PassTime(c.ms, c.t1, LastTime(before, start))
  }

  function LostTime(calls: seq<Call>): nat
    requires InClock(calls)
  {
    if calls == [] then 0
    else
      var c := calls[|calls| - 1];
      LostTime(calls[..|calls| - 1]) + if c.ms == 0 then (c.t2 - c.t1) % CLOCK else 0
  }

  lemma ModJoins(a: int, b: int, c: int)
    ensures ((a + b) % CLOCK + c) % CLOCK == (a + b + c) % CLOCK
  {
    assert a + b == CLOCK * ((a + b) / CLOCK) + (a + b) % CLOCK;
    ModShift((a + b) % CLOCK + c, (a + b) / CLOCK);
  }

  lemma ModShift(a: int, turns: int)
    ensures (a + CLOCK * turns) % CLOCK == a % CLOCK
  {
  }

  // What one call accounts for and loses takes the noted time on to the next.
  lemma CallAdvances(c: Call, last: nat)
    requires c.ms < CLOCK && c.t1 < CLOCK && c.t2 < CLOCK && last < CLOCK
    ensures var lost := if c.ms == 0 then (c.t2 - c.t1) % CLOCK else 0;
            (last + (PassTime(c.ms, c.t1, last) + lost)) % CLOCK == NextTime(c.ms, c.t2, last)
    ensures c.ms != 0 ==> PassTime(c.ms, c.t1, last) == c.ms
  {
    if c.ms == 0 {
      var d, lost := PassTime(0, c.t1, last), (c.t2 - c.t1) % CLOCK;
      var q, r := (c.t1 - last) / CLOCK, (c.t2 - c.t1) / CLOCK;
      assert c.t1 - last == CLOCK * q + d && c.t2 - c.t1 == CLOCK * r + lost;
      assert last + (d + lost) == c.t2 + CLOCK * (-q - r);
      ModShift(c.t2, -q - r);
    }
  }

  // No time is lost or counted twice: what all calls account for, together with what passes
  // between the two readings of the clock, is what has passed since the start.
  lemma {:induction false} TimeIsAccounted(calls: seq<Call>, start: nat)
    requires InClock(calls) && start < CLOCK
    ensures (start + (AccountedFor(calls, start) + LostTime(calls))) % CLOCK == LastTime(calls, start)
  {
    if calls != [] {
      var c, before := calls[|calls| - 1], calls[..|calls| - 1];
      TimeIsAccounted(before, start);
      var last := LastTime(before, start);
      CallAdvances(c, last);
      var lost := if c.ms == 0 then (c.t2 - c.t1) % CLOCK else 0;
      var more := PassTime(c.ms, c.t1, last) + lost;
      ModJoins(start, AccountedFor(before, start) + LostTime(before), more);
    }
  }

  // A registered callback; id is also its position.
  datatype Entry = Entry(id: nat, period: nat, cnt: nat)

  function Count(e: Entry, dtime: nat): nat { (e.cnt + dtime) % TIMER }

  predicate Fires(e: Entry, dtime: nat) { e.period < Count(e, dtime) }

  function Tick(e: Entry, dtime: nat): Entry { e.(cnt := if Fires(e, dtime) then 0 else Count(e, dtime)) }

  // A pass over the callbacks: what becomes of them, and which run, in order.
  function Pass(es: seq<Entry>, dtime: nat): (seq<Entry>, seq<nat>) {
    if es == [] then ([], [])
    else
      var (rest, fired) := Pass(es[1..], dtime);
      ([Tick(es[0], dtime)] + rest, (if Fires(es[0], dtime) then [es[0].id] else []) + fired)
  }

  // Registrations, at the end of the list
  function Register(es: seq<Entry>, periods: seq<nat>): (r: seq<Entry>)
    ensures |r| == |es| + |periods|
    decreases |periods|
  {
    if periods == [] then es else Register(es + [Entry(|es|, periods[0], 0)], periods[1..])
  }

  // What the callbacks of a pass register while they run; regs[id] is what callback id registers.
  function Registrations(fired: seq<nat>, regs: seq<seq<nat>>): seq<nat> {
    if fired == [] then []
    else (if fired[0] < |regs| then regs[fired[0]] else []) + Registrations(fired[1..], regs)
  }

  // pclb_task
  function Task(es: seq<Entry>, dtime: nat, regs: seq<seq<nat>>): seq<Entry> {
    Register(Pass(es, dtime).0, Registrations(Pass(es, dtime).1, regs))
  }

  lemma {:induction false} PassIs(es: seq<Entry>, dtime: nat)
    ensures |Pass(es, dtime).0| == |es| && forall i :: 0 <= i < |es| ==> Pass(es, dtime).0[i] == Tick(es[i], dtime)
    ensures forall id :: id in Pass(es, dtime).1 <==> exists i :: 0 <= i < |es| && es[i].id == id && Fires(es[i], dtime)
  {
    if es != [] {
      PassIs(es[1..], dtime);
      forall id
        ensures id in Pass(es, dtime).1 <==> exists i :: 0 <= i < |es| && es[i].id == id && Fires(es[i], dtime)
      {
        if i :| 0 <= i < |es| && es[i].id == id && Fires(es[i], dtime) {
          if i > 0 { assert es[1..][i - 1] == es[i]; }
        }
        if i :| 0 <= i < |es[1..]| && es[1..][i].id == id && Fires(es[1..][i], dtime) {
          assert es[i + 1] == es[1..][i];
        }
      }
    }
  }

  lemma {:induction false} RegisterIs(es: seq<Entry>, periods: seq<nat>)
    ensures |Register(es, periods)| == |es| + |periods| && Register(es, periods)[..|es|] == es
    ensures forall i :: 0 <= i < |periods| ==> Register(es, periods)[|es| + i] == Entry(|es| + i, periods[i], 0)
    decreases |periods|
  {
    if periods != [] {
      var es' := es + [Entry(|es|, periods[0], 0)];
      RegisterIs(es', periods[1..]);
      assert es'[..|es|] == es;
      var r := Register(es, periods);
      assert r[..|es|] == r[..|es'|][..|es|];
      forall i | 0 <= i < |periods| ensures r[|es| + i] == Entry(|es| + i, periods[i], 0) {
        if i == 0 {
          assert r[|es|] == r[..|es'|][|es|];
        } else {
          assert r[|es'| + (i - 1)] == Entry(|es'| + (i - 1), periods[1..][i - 1], 0);
        }
      }
    }
  }

  lemma {:induction false} PassAppend(es: seq<Entry>, e: Entry, dtime: nat)
    ensures Pass(es + [e], dtime) ==
            (Pass(es, dtime).0 + [Tick(e, dtime)], Pass(es, dtime).1 + if Fires(e, dtime) then [e.id] else [])
  {
    var s, t := es + [e], Tick(e, dtime);
    var last: seq<nat> := if Fires(e, dtime) then [e.id] else [];
    if es == [] {
      assert s[1..] == [];
      assert [t] + [] == [] + [t] && last + [] == [] + last;
    } else {
      assert s[0] == es[0] && s[1..] == es[1..] + [e];
      PassAppend(es[1..], e, dtime);
      var (rest, fired) := Pass(es[1..], dtime);
      var first: seq<nat> := if Fires(es[0], dtime) then [es[0].id] else [];
      assert first + (fired + last) == (first + fired) + last;
      assert [Tick(es[0], dtime)] + (rest + [t]) == ([Tick(es[0], dtime)] + rest) + [t];
    }
  }

  lemma {:induction false} RegistrationsAppend(fired: seq<nat>, id: nat, regs: seq<seq<nat>>)
    ensures Registrations(fired + [id], regs) == Registrations(fired, regs) + Registrations([id], regs)
  {
    if fired == [] {
      assert fired + [id] == [id];
    } else {
      assert (fired + [id])[1..] == fired[1..] + [id];
      RegistrationsAppend(fired[1..], id, regs);
    }
  }

  lemma {:induction false} RegisterAppend(es: seq<Entry>, a: seq<nat>, b: seq<nat>)
    ensures Register(Register(es, a), b) == Register(es, a + b)
    decreases |a|
  {
    if a == [] {
      assert a + b == b;
    } else {
      assert (a + b)[1..] == a[1..] + b;
      RegisterAppend(es + [Entry(|es|, a[0], 0)], a[1..], b);
    }
  }

  lemma {:induction false} RegisterWith(es: seq<Entry>, periods: seq<nat>, k: nat, e: Entry)
    requires k < |es|
    ensures k < |Register(es, periods)| && Register(es, periods)[k := e] == Register(es[k := e], periods)
    ensures Register(es, periods)[k] == es[k]
    decreases |periods|
  {
    if periods != [] {
      var n := Entry(|es|, periods[0], 0);
      assert (es + [n])[k := e] == es[k := e] + [n];
      RegisterWith(es + [n], periods[1..], k, e);
    }
  }

  // The list in the middle of a pass, before callback k: the earlier ones have ticked, and
  // periods have been registered behind all.
  function Midway(es: seq<Entry>, k: nat, dtime: nat, periods: seq<nat>): seq<Entry>
    requires k <= |es|
  {
    Register(Pass(es[..k], dtime).0 + es[k..], periods)
  }

  lemma MidwayTick(es: seq<Entry>, k: nat, dtime: nat, periods: seq<nat>)
    requires k < |es|
    ensures var v := Midway(es, k, dtime, periods);
            k < |v| && v[k] == es[k] && v[k := Tick(es[k], dtime)] == Midway(es, k + 1, dtime, periods)
    ensures Pass(es[..k + 1], dtime).1 == Pass(es[..k], dtime).1 + if Fires(es[k], dtime) then [es[k].id] else []
  {
    assert es[..k + 1] == es[..k] + [es[k]];
    PassAppend(es[..k], es[k], dtime);
    PassIs(es[..k], dtime);
    var p := Pass(es[..k], dtime).0 + es[k..];
    assert p[k := Tick(es[k], dtime)] == Pass(es[..k + 1], dtime).0 + es[k + 1..];
    RegisterWith(p, periods, k, Tick(es[k], dtime));
  }

  // What the visit of callback k makes of the list, and whether it runs.
  function Visited(v: seq<Entry>, k: nat, dtime: nat, regs: seq<seq<nat>>): seq<Entry>
    requires k < |v|
  {
    var v' := v[k := Tick(v[k], dtime)];
    if Fires(v[k], dtime) then Register(v', Registrations([v[k].id], regs)) else v'
  }

  function Ran(e: Entry, dtime: nat): seq<nat> { if Fires(e, dtime) then [e.id] else [] }

  // The same in the steps of the source: its counter is set, it runs, its counter is reset.
  lemma VisitedBySteps(v: seq<Entry>, k: nat, dtime: nat, regs: seq<seq<nat>>)
    requires k < |v| && Fires(v[k], dtime)
    ensures Register(v[k := v[k].(cnt := Count(v[k], dtime))], Registrations([v[k].id], regs))[k := v[k].(cnt := 0)] ==
            Visited(v, k, dtime, regs)
  {
    var v1 := v[k := v[k].(cnt := Count(v[k], dtime))];
    RegisterWith(v1, Registrations([v[k].id], regs), k, v[k].(cnt := 0));
    assert v1[k := v[k].(cnt := 0)] == v[k := Tick(v[k], dtime)];
  }

  // Visiting callbacks k, ..., n - 1 one after the other
  function Follow(v: seq<Entry>, k: nat, n: nat, dtime: nat, fired: seq<nat>, regs: seq<seq<nat>>)
    : (seq<Entry>, seq<nat>)
    requires k <= n <= |v|
    decreases n - k
  {
    if k == n then (v, fired)
    else Follow(Visited(v, k, dtime, regs), k + 1, n, dtime, fired + Ran(v[k], dtime), regs)
  }

  lemma MidwayVisited(es: seq<Entry>, k: nat, dtime: nat, fired: seq<nat>, regs: seq<seq<nat>>)
    requires k < |es|
    ensures var v := Midway(es, k, dtime, Registrations(fired, regs));
            && k < |v| && v[k] == es[k]
            && Visited(v, k, dtime, regs) == Midway(es, k + 1, dtime, Registrations(fired + Ran(es[k], dtime), regs))
  {
    MidwayTick(es, k, dtime, Registrations(fired, regs));
    if Fires(es[k], dtime) {
      RegistrationsAppend(fired, es[k].id, regs);
      var more := Registrations([es[k].id], regs);
      RegisterAppend(Pass(es[..k + 1], dtime).0 + es[k + 1..], Registrations(fired, regs), more);
    } else {
      assert fired + [] == fired;
    }
  }

  lemma {:induction false} FollowFrom(es: seq<Entry>, k: nat, dtime: nat, regs: seq<seq<nat>>)
    requires k <= |es|
    ensures var fired := Pass(es[..k], dtime).1;
            var v := Midway(es, k, dtime, Registrations(fired, regs));
            |es| <= |v| && Follow(v, k, |es|, dtime, fired, regs) == (Task(es, dtime, regs), Pass(es, dtime).1)
    decreases |es| - k
  {
    var fired := Pass(es[..k], dtime).1;
    PassIs(es[..k], dtime);
    if k < |es| {
      MidwayTick(es, k, dtime, []);
      MidwayVisited(es, k, dtime, fired, regs);
      FollowFrom(es, k + 1, dtime, regs);
    } else {
      assert es[..k] == es;
      assert Pass(es, dtime).0 + es[k..] == Pass(es, dtime).0;
    }
  }

  // Visiting the callbacks one after the other is a pass over those there were, followed by
  // everything they register; nothing that is registered during the pass is visited.
  lemma FollowIsTask(es: seq<Entry>, dtime: nat, regs: seq<seq<nat>>)
    ensures Follow(es, 0, |es|, dtime, [], regs) == (Task(es, dtime, regs), Pass(es, dtime).1)
  {
    assert es[..0] == [] && [] + es[0..] == es;
    FollowFrom(es, 0, dtime, regs);
  }

  lemma EmptyTask(dtime: nat, regs: seq<seq<nat>>)
    ensures Task([], dtime, regs) == [] && Pass([], dtime).1 == []
  {
  }

  lemma RegisterOne(es: seq<Entry>, period: nat)
    ensures Register(es, [period]) == es + [Entry(|es|, period, 0)]
  {
    assert [period][1..] == [];
  }

  // ---------------------------------------------------------------- runs

  datatype Move = Add(period: nat) | Poll(dtime: nat, regs: seq<seq<nat>>)

  function Apply(es: seq<Entry>, move: Move): seq<Entry> {
    match move
    case Add(period) => Register(es, [period])
    case Poll(dtime, regs) => Task(es, dtime, regs)
  }

  // The states ess[0], ess[1], ... are those of a run, from no callbacks on.
  ghost predicate Run(ess: seq<seq<Entry>>, moves: seq<Move>) {
    |ess| == |moves| + 1 && ess[0] == [] && forall k :: 0 <= k < |moves| ==> Advances(ess, moves, k)
  }

  ghost predicate Advances(ess: seq<seq<Entry>>, moves: seq<Move>, k: nat) {
    && k < |moves| && k + 1 < |ess| && ess[k + 1] == Apply(ess[k], moves[k])
    && (moves[k].Poll? ==> moves[k].dtime < CLOCK)
  }

  function TimeOf(move: Move): nat { if move.Poll? then move.dtime else 0 }

  // The time that the passes among moves i, ..., j - 1 account for
  function Between(moves: seq<Move>, i: nat, j: nat): nat
    requires i <= j <= |moves|
  {
    if i == j then 0 else Between(moves, i, j - 1) + TimeOf(moves[j - 1])
  }

  // Callback c runs in move k.
  ghost predicate RunsIn(ess: seq<seq<Entry>>, moves: seq<Move>, c: nat, k: nat)
    requires k < |moves| && k < |ess| && c < |ess[k]|
  {
    moves[k].Poll? && c in Pass(ess[k], moves[k].dtime).1
  }

  ghost predicate Numbered(es: seq<Entry>) { forall i :: 0 <= i < |es| ==> es[i].id == i }

  lemma ApplyIs(es: seq<Entry>, move: Move)
    requires Numbered(es)
    ensures var es' := Apply(es, move);
            && |es| <= |es'| && Numbered(es')
            && (forall c :: 0 <= c < |es| ==> es'[c] == if move.Poll? then Tick(es[c], move.dtime) else es[c])
            && (forall c :: |es| <= c < |es'| ==> es'[c].cnt == 0)
  {
    match move
    case Add(period) => RegisterIs(es, [period]); KeepsNumbers(es, [period]);
    case Poll(dtime, regs) =>
      PassIs(es, dtime);
      var es1 := Pass(es, dtime).0;
      RegisterIs(es1, Registrations(Pass(es, dtime).1, regs));
      KeepsNumbers(es1, Registrations(Pass(es, dtime).1, regs));
  }

  lemma KeepsNumbers(es: seq<Entry>, periods: seq<nat>)
    requires Numbered(es)
    ensures var r := Register(es, periods);
            && Numbered(r) && |r| >= |es| && (forall c :: 0 <= c < |es| ==> r[c] == es[c])
            && forall c :: |es| <= c < |r| ==> r[c].cnt == 0
  {
    RegisterIs(es, periods);
    var r := Register(es, periods);
    assert forall c :: 0 <= c < |es| ==> r[c] == r[..|es|][c];
    forall c | |es| <= c < |r| ensures r[c].cnt == 0 && r[c].id == c {
      var i := c - |es|;
      assert r[|es| + i] == Entry(|es| + i, periods[i], 0);
    }
  }

  lemma {:induction false} RunNumbered(ess: seq<seq<Entry>>, moves: seq<Move>, k: nat)
    requires Run(ess, moves) && k < |ess|
    ensures Numbered(ess[k])
  {
    if k > 0 {
      RunNumbered(ess, moves, k - 1);
      assert Advances(ess, moves, k - 1);
      ApplyIs(ess[k - 1], moves[k - 1]);
    }
  }

  // Callback c was registered, or ran, in the last of the first i moves.
  ghost predicate StartsAt(ess: seq<seq<Entry>>, moves: seq<Move>, c: nat, i: nat) {
    && 0 < i <= |moves| && i < |ess| && c < |ess[i]|
    && (c < |ess[i - 1]| ==> RunsIn(ess, moves, c, i - 1))
  }

  // It does not run in moves i, ..., j - 1.
  ghost predicate Quiet(ess: seq<seq<Entry>>, moves: seq<Move>, c: nat, i: nat, j: nat) {
    && i <= j <= |moves| && j < |ess|
    && forall k :: i <= k < j ==> c < |ess[k]| && !RunsIn(ess, moves, c, k)
  }

  lemma RunsIff(es: seq<Entry>, dtime: nat, c: nat)
    requires Numbered(es) && c < |es|
    ensures c in Pass(es, dtime).1 <==> Fires(es[c], dtime)
  {
    PassIs(es, dtime);
  }

  // While a callback is quiet, its counter is the time since it started.
  lemma {:induction false} CounterIs(ess: seq<seq<Entry>>, moves: seq<Move>, c: nat, i: nat, j: nat)
    requires Run(ess, moves) && StartsAt(ess, moves, c, i) && Quiet(ess, moves, c, i, j)
    requires ess[i][c].period + CLOCK <= TIMER
    ensures c < |ess[j]| && ess[j][c].period == ess[i][c].period
    ensures ess[j][c].cnt == Between(moves, i, j) <= ess[i][c].period
    decreases j
  {
    RunNumbered(ess, moves, j - 1);
    assert Advances(ess, moves, j - 1);
    ApplyIs(ess[j - 1], moves[j - 1]);
    if i == j {
      if c < |ess[i - 1]| { RunsIff(ess[i - 1], moves[i - 1].dtime, c); }
    } else {
      CounterIs(ess, moves, c, i, j - 1);
      assert !RunsIn(ess, moves, c, j - 1);
      if moves[j - 1].Poll? { RunsIff(ess[j - 1], moves[j - 1].dtime, c); }
    }
  }

  // After its registration or its last run, a callback runs again in exactly the first pass
  // with which the time since then exceeds its period.
  lemma RunsWhenDue(ess: seq<seq<Entry>>, moves: seq<Move>, c: nat, i: nat, j: nat)
    requires Run(ess, moves) && StartsAt(ess, moves, c, i) && Quiet(ess, moves, c, i, j) && j < |moves|
    requires ess[i][c].period + CLOCK <= TIMER
    ensures c < |ess[j]|
    ensures RunsIn(ess, moves, c, j) <==> Between(moves, i, j + 1) > ess[i][c].period
  {
    CounterIs(ess, moves, c, i, j);
    RunNumbered(ess, moves, j);
    assert Between(moves, i, j + 1) == ess[j][c].cnt + TimeOf(moves[j]);
    assert Advances(ess, moves, j);
    if moves[j].Poll? {
      RunsIff(ess[j], moves[j].dtime, c);
      CountIs(ess[j][c], moves[j].dtime);
    }
  }

  // A small counter does not wrap round.
  lemma CountIs(e: Entry, dtime: nat)
    requires e.cnt <= e.period && e.period + CLOCK <= TIMER && dtime < CLOCK
    ensures Fires(e, dtime) <==> e.cnt + dtime > e.period
  {
  }

  // Two successive runs of a callback are more than its period apart, and at most its period
  // plus the last pass.
  lemma GapBounds(ess: seq<seq<Entry>>, moves: seq<Move>, c: nat, i: nat, j: nat)
    requires Run(ess, moves) && StartsAt(ess, moves, c, i) && Quiet(ess, moves, c, i, j) && j < |moves|
    requires ess[i][c].period + CLOCK <= TIMER
    requires c < |ess[j]| && RunsIn(ess, moves, c, j)
    ensures ess[i][c].period < Between(moves, i, j + 1) <= ess[i][c].period + TimeOf(moves[j])
  {
    CounterIs(ess, moves, c, i, j);
    RunsWhenDue(ess, moves, c, i, j);
  }

  // ---------------------------------------------------------------- the condition on the period

  // A callback that is alone, polled every millisecond until its counter is its period, and
  // then once more after the longest time a pass can account for
  function SlowMoves(period: nat): seq<Move> {
    seq(period + 2, k => if k == 0 then Add(period) else Poll(if k <= period then 1 else CLOCK - 1, []))
  }

  function SlowState(period: nat, k: nat): seq<Entry>
    requires k <= period + 2
  {
    if k == 0 then []
    else if k <= period + 1 then [Entry(0, period, k - 1)]
    else [Tick(Entry(0, period, period), CLOCK - 1)]
  }

  lemma {:induction false} SlowTime(period: nat, j: nat)
    requires 1 <= j <= period + 1
    ensures Between(SlowMoves(period), 1, j) == j - 1
  {
    if j > 1 { SlowTime(period, j - 1); }
  }

  // For any larger period there is a run in which a callback that is due does not run, because
  // its counter wraps round.
  lemma DueButWraps(period: nat) returns (ess: seq<seq<Entry>>, moves: seq<Move>, j: nat)
    requires TIMER < period + CLOCK && period < TIMER
    ensures Run(ess, moves) && StartsAt(ess, moves, 0, 1) && Quiet(ess, moves, 0, 1, j) && j < |moves|
    ensures ess[1][0].period == period && Between(moves, 1, j + 1) > period && 0 < |ess[j]|
    ensures !RunsIn(ess, moves, 0, j)
  {
    moves, j := SlowMoves(period), period + 1;
    ess := seq(period + 3, k requires 0 <= k < period + 3 => SlowState(period, k));
    forall k | 0 <= k < |moves| ensures Advances(ess, moves, k) { SlowStep(period, k); }
    forall k | 1 <= k <= j ensures !RunsIn(ess, moves, 0, k) {
      RunsIff(ess[k], moves[k].dtime, 0);
    }
    SlowTime(period, j);
    assert Between(moves, 1, j + 1) == Between(moves, 1, j) + TimeOf(moves[j]);
  }

  lemma SlowStep(period: nat, k: nat)
    requires TIMER < period + CLOCK && period < TIMER && k < period + 2
    ensures SlowState(period, k + 1) == Apply(SlowState(period, k), SlowMoves(period)[k])
  {
    if k == 0 {
      RegisterFirst(period);
    } else {
      PollAlone(Entry(0, period, k - 1), if k <= period then 1 else CLOCK - 1);
    }
  }

  lemma RegisterFirst(period: nat)
    ensures Register([], [period]) == [Entry(0, period, 0)]
  {
    RegisterIs([], [period]);
    assert Register([], [period])[0 + 0] == Entry(0, period, 0);
  }

  lemma PollAlone(e: Entry, dtime: nat)
    ensures Apply([e], Poll(dtime, [])) == [Tick(e, dtime)]
  {
    PassIs([e], dtime);
    NoRegistrations(Pass([e], dtime).1);
    assert Pass([e], dtime).0 == [Tick(e, dtime)];
  }

  lemma {:induction false} NoRegistrations(fired: seq<nat>)
    ensures Registrations(fired, []) == []
  {
    if fired != [] { NoRegistrations(fired[1..]); }
  }
}
