// The periodic scheduler of src/lib/pclb.c: callbacks on two linked lists, one that
// registrations extend at any time and one that a pass follows.

module Scheduler {
  import opened Common
  import opened SchedulerModel

  // struct periodic_clb_class
  class Clb {
    const id: nat
    const period: nat
    var cnt: nat
    var next: Clb?
    var shadowNext: Clb?

    constructor (id: nat, period: nat)
      ensures this.id == id && this.period == period && cnt == 0 && next == null && shadowNext == null
    {
      this.id, this.period := id, period;
      cnt, next, shadowNext := 0, null, null;
    }
  }

  // The callback at a position, or NULL behind the last one.
  ghost function At(s: seq<Clb>, i: nat): Clb? { if i < |s| then s[i] else null }

  ghost function ViewOf(s: seq<Clb>): (es: seq<Entry>)
    reads s
    ensures |es| == |s| && forall i :: 0 <= i < |s| ==> es[i] == Entry(s[i].id, s[i].period, s[i].cnt)
  {
    seq(|s|, i requires 0 <= i < |s| reads s => Entry(s[i].id, s[i].period, s[i].cnt))
  }

  // Item i of s is followed by item i + 1 in the list of registrations.
  ghost predicate InShadow(s: seq<Clb>, i: nat)
    requires i < |s|
    reads s`shadowNext
  {
    s[i].shadowNext == At(s, i + 1)
  }

  // Item i is followed by item i + 1 in a list of n items.
  ghost predicate InPass(s: seq<Clb>, n: nat, i: nat)
    requires i < |s|
    reads s`next
  {
    s[i].next == if i + 1 < n then At(s, i + 1) else null
  }

  // Adding an item behind the last one
  lemma Extended(s: seq<Clb>, n: nat, obj: Clb)
    requires n <= |s| && (forall i :: 0 <= i < |s| ==> InPass(s, n, i)) && obj.next == null
    requires (forall i :: 0 <= i < |s| - 1 ==> InShadow(s, i)) && obj.shadowNext == null
    requires s != [] ==> s[|s| - 1].shadowNext == obj
    ensures forall i :: 0 <= i <= |s| ==> InPass(s + [obj], n, i) && InShadow(s + [obj], i)
    ensures ViewOf(s + [obj]) == ViewOf(s) + [Entry(obj.id, obj.period, obj.cnt)]
  {
    forall i | 0 <= i <= |s| ensures InPass(s + [obj], n, i) && InShadow(s + [obj], i) {
      if i < |s| { assert InPass(s, n, i); }
      if i < |s| - 1 { assert InShadow(s, i); }
    }
  }

  class Pclb {
    var head: Clb?
    var shadowHead: Clb?
    var objCnt: nat
    var lastSystemTime: nat
    ghost var all: seq<Clb>   // everything registered, in order
    ghost var listed: nat     // how many of them the last pass followed
    ghost var repr: set<Clb>

    // pclb_init
    constructor ()
      ensures Valid() && ViewOf(all) == []
    {
      head, shadowHead, objCnt, lastSystemTime := null, null, 0, 0;
      all, listed, repr := [], 0, {};
    }

    ghost predicate Valid()
      reads this, repr
    {
      && (forall i :: 0 <= i < |all| ==> all[i] in repr)
      && objCnt == |all| && listed <= |all| && (forall i :: 0 <= i < |all| ==> all[i].id == i)
      && shadowHead == At(all, 0) && (forall i :: 0 <= i < |all| ==> InShadow(all, i))
      && (forall i :: 0 <= i < |all| ==> InPass(all, listed, i))
    }

    // The last object on the list of registrations
    method Last() returns (last: Clb)
      requires Valid() && shadowHead != null
      ensures all != [] && last == all[|all| - 1]
    {
      last := shadowHead;
      ghost var k := 0;
      assert InShadow(all, 0);
      while last.shadowNext != null
        invariant k < |all| && last == all[k] && InShadow(all, k)
        decreases |all| - k
      {
        last := last.shadowNext;
        k := k + 1;
        assert InShadow(all, k);
      }
    }

    // Writing the pointer to an object behind the last one
    method LinkBehind(obj: Clb)
      requires Valid() && obj !in repr
      modifies this`shadowHead, repr`shadowNext
      ensures shadowHead == if all == [] then obj else old(shadowHead)
      ensures forall i :: 0 <= i < |all| - 1 ==> InShadow(all, i)
      ensures all != [] ==> all[|all| - 1].shadowNext == obj
      ensures ViewOf(all) == old(ViewOf(all))
    {
      if shadowHead == null {
        shadowHead := obj;
      } else {
        var last := Last();
        last.shadowNext := obj;
        forall i | 0 <= i < |all| - 1 ensures InShadow(all, i) {
          assert old(InShadow(all, i)) && all[i].id != last.id;
        }
      }
    }

    method Link(obj: Clb)
      requires Valid() && obj !in repr && obj.id == objCnt && obj.next == null && obj.shadowNext == null
      modifies this`shadowHead, this`objCnt, this`all, this`repr, repr`shadowNext
      ensures Valid() && all == old(all) + [obj] && repr == old(repr) + {obj}
      ensures ViewOf(all) == old(ViewOf(all)) + [Entry(obj.id, obj.period, obj.cnt)]
    {
      LinkBehind(obj);
      Extended(all, listed, obj);
      all, repr, objCnt := all + [obj], repr + {obj}, objCnt + 1;
    }

    // pclb_register
    method RegisterClb(period: nat, memory: bool) returns (error: int)
      requires Valid()
      modifies this`shadowHead, this`objCnt, this`all, this`repr, repr`shadowNext
      ensures Valid() && old(all) <= all && fresh(repr - old(repr))
      ensures error == if memory then ERR_SUCCESS else ERR_NO_MEMORY
      ensures ViewOf(all) == if memory then Register(old(ViewOf(all)), [period]) else old(ViewOf(all))
    {
      if !memory { return ERR_NO_MEMORY; }
      RegisterOne(ViewOf(all), period);
      var obj := new Clb(objCnt, period);
      Link(obj);
      return ERR_SUCCESS;
    }

    // The first part of pclb_task: the pass follows everything that is registered by then.
    method FollowAll()
      requires Valid()
      modifies this`head, this`listed, repr`next
      ensures Valid() && listed == |all| && head == At(all, 0) && ViewOf(all) == old(ViewOf(all))
    {
      head := shadowHead;
      if head != null {
        var obj := head;
        ghost var k := 0;
        assert InShadow(all, 0);
        while obj.shadowNext != null
          invariant head == shadowHead && k < |all| && obj == all[k]
          invariant forall i :: 0 <= i < |all| ==> InShadow(all, i)
          invariant forall i :: 0 <= i < |all| ==> all[i].cnt == old(all[i].cnt)
          invariant forall i :: 0 <= i < k ==> InPass(all, |all|, i)
          invariant forall i :: k <= i < |all| ==> all[i].next == old(all[i].next)
          decreases |all| - k
        {
          assert InShadow(all, k);
          label Before:
          obj.next := obj.shadowNext;
          forall i | 0 <= i <= k ensures InPass(all, |all|, i) {
            if i < k { assert old@Before(InPass(all, |all|, i)); }
          }
          obj := obj.shadowNext;
          k := k + 1;
        }
        assert InShadow(all, k) && old(InPass(all, listed, k));
        assert InPass(all, |all|, k);
      }
      listed := |all|;
    }

    // Running callback id, which registers what regs says.
    method RunClb(id: nat, regs: seq<seq<nat>>)
      requires Valid()
      modifies this`shadowHead, this`objCnt, this`all, this`repr, repr`shadowNext
      ensures Valid() && old(all) <= all && fresh(repr - old(repr))
      ensures ViewOf(all) == Register(old(ViewOf(all)), Registrations([id], regs))
    {
      ghost var es := ViewOf(all);
      if id < |regs| {
        var i := 0;
        while i < |regs[id]|
          invariant i <= |regs[id]|
          invariant Valid() && old(all) <= all && fresh(repr - old(repr))
          invariant ViewOf(all) == Register(es, regs[id][..i])
        {
          RegisterAppend(es, regs[id][..i], [regs[id][i]]);
          assert regs[id][..i + 1] == regs[id][..i] + [regs[id][i]];
          var error := RegisterClb(regs[id][i], true);
          i := i + 1;
        }
        assert regs[id][..i] == Registrations([id], regs);
      }
    }

    // The second part: the callbacks that are due run, in order.
    method RunDue(dtime: nat, regs: seq<seq<nat>>) returns (fired: seq<nat>)
      requires Valid() && listed == |all| && head == At(all, 0)
      modifies this`shadowHead, this`objCnt, this`all, this`repr, repr`shadowNext, repr`cnt
      ensures Valid() && fresh(repr - old(repr)) && fired == Pass(old(ViewOf(all)), dtime).1
      ensures ViewOf(all) == Task(old(ViewOf(all)), dtime, regs)
    {
      fired := [];
      var obj := head;
      ghost var n, k, end := |all|, 0, Follow(ViewOf(all), 0, |all|, dtime, [], regs);
      FollowIsTask(ViewOf(all), dtime, regs);
      while obj != null
        invariant k <= n == listed <= |all| && obj == if k < n then all[k] else null
        invariant Valid() && fresh(repr - old(repr))
        invariant Follow(ViewOf(all), k, n, dtime, fired, regs) == end
        decreases n - k
      {
        fired, obj := Visit(obj, k, dtime, fired, regs);
        k := k + 1;
      }
    }

    method SetCount(obj: Clb, ghost k: nat, c: nat)
      requires Valid() && k < |all| && obj == all[k]
      modifies obj`cnt
      ensures Valid() && ViewOf(all) == old(ViewOf(all))[k := Entry(obj.id, obj.period, c)]
    {
      obj.cnt := c;
    }

    // One item of the pass, and the one that follows it
    method Visit(obj: Clb, ghost k: nat, dtime: nat, before: seq<nat>, regs: seq<seq<nat>>)
      returns (fired: seq<nat>, next: Clb?)
      requires Valid() && k < listed && obj == all[k]
      modifies this`shadowHead, this`objCnt, this`all, this`repr, repr`shadowNext, repr`cnt
      ensures Valid() && listed == old(listed) && fresh(repr - old(repr))
      ensures next == if k + 1 < listed then all[k + 1] else null
      ensures fired == before + Ran(old(ViewOf(all))[k], dtime)
      ensures ViewOf(all) == Visited(old(ViewOf(all)), k, dtime, regs)
    {
      ghost var v := ViewOf(all);
      SetCount(obj, k, (obj.cnt + dtime) % TIMER);
      fired := before;
      if obj.period < obj.cnt {
        VisitedBySteps(v, k, dtime, regs);
        RunClb(obj.id, regs);
        SetCount(obj, k, 0);
        fired := fired + [obj.id];
      }
      assert InPass(all, listed, k);
      next := obj.next;
    }

    // The time of a pass; t1 and t2 are what reading the clock twice gives.
    method ReadClock(ms: nat, t1: nat, t2: nat) returns (dtime: nat)
      requires ms < CLOCK && t1 < CLOCK && t2 < CLOCK && lastSystemTime < CLOCK
      modifies this`lastSystemTime
      ensures dtime == PassTime(ms, t1, old(lastSystemTime))
      ensures lastSystemTime == NextTime(ms, t2, old(lastSystemTime))
    {
      if ms == 0 {
        dtime := (t1 - lastSystemTime) % CLOCK;
        lastSystemTime := t2;
      } else {
        dtime := ms;
        lastSystemTime := (lastSystemTime + ms) % CLOCK;
      }
    }

    // pclb_task
    method RunTask(ms: nat, t1: nat, t2: nat, regs: seq<seq<nat>>) returns (fired: seq<nat>)
      requires Valid() && ms < CLOCK && t1 < CLOCK && t2 < CLOCK && lastSystemTime < CLOCK
      modifies this, repr`next, repr`shadowNext, repr`cnt
      ensures Valid() && fresh(repr - old(repr)) && lastSystemTime < CLOCK
      ensures lastSystemTime == if old(all) == [] then old(lastSystemTime) else NextTime(ms, t2, old(lastSystemTime))
      ensures fired == Pass(old(ViewOf(all)), PassTime(ms, t1, old(lastSystemTime))).1
      ensures ViewOf(all) == Task(old(ViewOf(all)), PassTime(ms, t1, old(lastSystemTime)), regs)
    {
      FollowAll();
      if head == null {
        EmptyTask(PassTime(ms, t1, lastSystemTime), regs);
        return [];
      }
      var dtime := ReadClock(ms, t1, t2);
      fired := RunDue(dtime, regs);
    }
  }
}
