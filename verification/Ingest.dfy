/** The parallel bake: a semaphore bounds the modules in flight, the pool builds them, a mutex applies the results. */
module Ingest {
  import opened Basics
  import opened Sequences
  import opened BakePools

  /** A counting semaphore with its waiters in arrival order. */
  class Semaphore {
    const max: nat
    var cur: nat
    var q: seq<nat>
    ghost var holders: set<nat>

    /** The count is the number of holders, and nobody waits while a slot is free. */
    ghost predicate Valid()
      reads this
    {
      && |holders| == cur <= max
      && (q != [] ==> cur == max)
      && NoRepeats(q)
      && forall t :: t in q ==> t !in holders
    }

    constructor (max: nat)
      ensures Valid() && this.max == max && q == [] && holders == {}
    {
      this.max, cur, q, holders := max, 0, [], {};
    }

    method Acquire(t: nat) returns (granted: bool)
      requires Valid() && t !in holders && t !in q
      modifies this
      ensures Valid()
      ensures granted <==> |old(holders)| < max
      ensures granted ==> holders == old(holders) + {t} && q == old(q)
      ensures !granted ==> holders == old(holders) && q == old(q) + [t]
    {
      granted := cur < max;
      if granted {
        cur := cur + 1;
        holders := holders + {t};
      } else {
        q := q + [t];
      }
    }

    /** Hands the slot to the first waiter, if there is one. */
    method Release(ghost t: nat) returns (woken: Option<nat>)
      requires Valid() && t in holders
      modifies this
      ensures Valid()
      ensures old(q) == [] ==> woken == None && q == [] && holders == old(holders) - {t}
      ensures old(q) != [] ==>
        woken == Some(old(q)[0]) && q == old(q)[1..] && holders == old(holders) - {t} + {old(q)[0]}
    {
      holders := holders - {t};
      if q == [] {
        cur := cur - 1;
        return None;
      }
      var w := q[0];
      assert w in q;
      assert forall x | x in q[1..] :: x in q && x != w;
      q := q[1..];
      holders := holders + {w};
      return Some(w);
    }
  }

  datatype Module = Module(bytes: Bytes, name: string)

  /**
   * Who is where: `slot` names the semaphore ticket of each job in flight, `applying` is the job with the mutex,
   * `queued` those behind it, `applied` those done with.
   */
  ghost predicate Linked(jobs: set<nat>, settled: seq<nat>, tickets: set<nat>, io: set<nat>, queued: seq<nat>,
                         slot: map<nat, nat>, applied: seq<nat>, applying: seq<nat>) {
    && settled == applied + applying + queued
    && |applying| <= 1 && (forall id: nat :: id in io <==> id in applying)
    && (applying == [] ==> queued == [])
    && InFlight(slot, jobs, applying, queued)
    && OneEach(slot) && slot.Values == tickets
  }

  ghost predicate InFlight(slot: map<nat, nat>, jobs: set<nat>, applying: seq<nat>, queued: seq<nat>) {
    forall id: nat :: id in slot <==> id in jobs || id in applying || id in queued
  }

  ghost predicate OneEach(slot: map<nat, nat>) {
    forall i, j :: i in slot && j in slot && slot[i] == slot[j] ==> i == j
  }

  lemma ValuesWithout(slot: map<nat, nat>, k: nat)
    requires k in slot && OneEach(slot)
    ensures OneEach(slot - {k})
    ensures (slot - {k}).Values == slot.Values - {slot[k]} && slot[k] in slot.Values
  {
    forall x | x in slot.Values && x != slot[k] ensures x in (slot - {k}).Values {
      var j :| j in slot && slot[j] == x;
      assert (slot - {k})[j] == x;
    }
  }

  lemma {:induction false} SlotsHeld(slot: map<nat, nat>)
    requires OneEach(slot)
    ensures |slot.Values| == |slot|
    decreases |slot|
  {
    if slot != map[] {
      var k :| k in slot;
      var rest := slot - {k};
      SizeOfDrop(slot, k);
      SlotsHeld(rest);
      ValuesWithout(slot, k);
    } else {
      assert slot.Values == {};
    }
  }

  /** No more jobs are outstanding than tickets are held. */
  lemma JobsBounded(jobs: set<nat>, settled: seq<nat>, tickets: set<nat>, io: set<nat>, queued: seq<nat>,
                    slot: map<nat, nat>, applied: seq<nat>, applying: seq<nat>)
    requires Linked(jobs, settled, tickets, io, queued, slot, applied, applying)
    ensures |jobs| <= |tickets|
  {
    SlotsHeld(slot);
    assert jobs <= slot.Keys;
    SubsetSize(jobs, slot.Keys);
    assert |slot.Keys| == |slot|;
  }

  lemma LaunchLinks(jobs: set<nat>, settled: seq<nat>, tickets: set<nat>, io: set<nat>, queued: seq<nat>,
                    slot: map<nat, nat>, applied: seq<nat>, applying: seq<nat>, id: nat, t: nat)
    requires Linked(jobs, settled, tickets, io, queued, slot, applied, applying)
    requires id !in jobs && id !in settled && t !in tickets
    ensures Linked(jobs + {id}, settled, tickets + {t}, io, queued, slot[id := t], applied, applying)
  {
    assert id !in applying && id !in queued;
    var after := slot[id := t];
    assert after.Values == slot.Values + {t} by {
      assert forall x | x in slot.Values :: x in after.Values by {
        forall x | x in slot.Values ensures x in after.Values {
          var k :| k in slot && slot[k] == x;
          assert after[k] == x;
        }
      }
      assert after[id] == t;
    }
  }

  lemma SettleLinks(jobs: set<nat>, settled: seq<nat>, tickets: set<nat>, io: set<nat>, queued: seq<nat>,
                    slot: map<nat, nat>, applied: seq<nat>, applying: seq<nat>, id: nat)
    requires Linked(jobs, settled, tickets, io, queued, slot, applied, applying) && id in jobs
    ensures applying == [] ==>
      Linked(jobs - {id}, settled + [id], tickets, io + {id}, queued, slot, applied, [id])
    ensures applying != [] ==>
      Linked(jobs - {id}, settled + [id], tickets, io, queued + [id], slot, applied, applying)
  {
    if applying != [] {
      assert settled + [id] == applied + applying + (queued + [id]);
    }
  }

  lemma ApplyLinks(jobs: set<nat>, settled: seq<nat>, tickets: set<nat>, io: set<nat>, queued: seq<nat>,
                   slot: map<nat, nat>, applied: seq<nat>, applying: seq<nat>)
    requires Linked(jobs, settled, tickets, io, queued, slot, applied, applying) && applying != []
    requires NoRepeats(settled) && forall id: nat :: id in jobs ==> id !in settled
    ensures var id := applying[0];
      var next := if queued == [] then [] else [queued[0]];
      && id in slot && slot[id] in tickets
      && Linked(jobs, settled, tickets - {slot[id]}, io - {id} + (if queued == [] then {} else {queued[0]}),
                if queued == [] then [] else queued[1..], slot - {id}, applied + applying, next)
  {
    hide InFlight, OneEach, NoRepeats;
    var id := applying[0];
    ApplyFlight(jobs, settled, queued, slot, applied, applying);
    ValuesWithout(slot, id);
    if queued != [] {
      assert queued == [queued[0]] + queued[1..];
      assert settled == (applied + applying) + [queued[0]] + queued[1..];
    }
  }

  lemma ApplyFlight(jobs: set<nat>, settled: seq<nat>, queued: seq<nat>, slot: map<nat, nat>, applied: seq<nat>,
                    applying: seq<nat>)
    requires settled == applied + applying + queued && |applying| == 1 && InFlight(slot, jobs, applying, queued)
    requires NoRepeats(settled) && forall id: nat :: id in jobs ==> id !in settled
    ensures var next := if queued == [] then [] else [queued[0]];
      && applying[0] in slot && applying[0] !in queued && applying[0] !in jobs
      && InFlight(slot - {applying[0]}, jobs, next, if queued == [] then [] else queued[1..])
  {
    var id := applying[0];
    assert settled[|applied|] == id;
    assert id in settled;
    assert forall i | 0 <= i < |queued| :: settled[|applied| + 1 + i] == queued[i];
    if queued != [] {
      assert queued == [queued[0]] + queued[1..];
    }
  }

  lemma PoolFacts(p: Pool)
    requires Sound(p)
    ensures NoRepeats(p.settled)
    ensures forall id: nat :: id in p.jobs ==> id !in p.settled && id < p.nextId
    ensures forall id: nat :: id in p.settled ==> id < p.nextId
  {
  }

  lemma NextIsNew(p: Pool)
    requires Sound(p)
    ensures p.nextId !in p.jobs && p.nextId !in p.settled
  {
    PoolFacts(p);
  }

  lemma ReleasedAndHeld(s: set<nat>, t: nat)
    requires t in s
    ensures s - {t} + {t} == s
  {
  }

  class Ingestor {
    const pool: BakePool
    const sem: Semaphore
    const io: Semaphore
    var waiting: map<nat, Module>
    var nextTicket: nat
    ghost var slot: map<nat, nat>
    ghost var applied: seq<nat>
    ghost var applying: seq<nat>

    ghost predicate Valid()
      reads this, pool, sem, io
    {
      && Ready()
      && Linked(pool.jobs, pool.settled, sem.holders, io.holders, io.q, slot, applied, applying)
    }

    ghost predicate Ready()
      reads this, pool, sem, io
    {
      && sem != io && pool.Valid() && sem.Valid() && io.Valid()
      && sem.max == pool.n + 2 && io.max == 1
      && (forall t :: t in sem.q ==> t in waiting && t < nextTicket)
      && (forall t :: t in sem.holders ==> t < nextTicket)
    }

    constructor (n: nat)
      ensures Valid() && fresh(pool) && fresh(sem) && fresh(io) && pool.n == n && !pool.closed
    {
      pool := new BakePool(n);
      sem := new Semaphore(n + 2);
      io := new Semaphore(1);
      waiting, nextTicket := map[], 0;
      slot, applied, applying := map[], [], [];
    }

    /** The next module: it waits for a slot, and goes to the pool when it has one. */
    method Offer(m: Module)
      requires Valid()
      modifies this, pool, sem
      ensures Valid() && pool.closed == old(pool.closed)
      ensures pool.settled == old(pool.settled) && applied == old(applied) && applying == old(applying)
      ensures |old(sem.holders)| < sem.max ==> pool.nextId == old(pool.nextId) + 1
      ensures |old(sem.holders)| == sem.max ==> pool.State() == old(pool.State()) && |sem.q| == |old(sem.q)| + 1
    {
      hide Linked, Sound, NoRepeats, Pumped, Submitted, Answered, Crashed, Spawned;
      var t := nextTicket;
      nextTicket := nextTicket + 1;
      var granted := sem.Acquire(t);
      if granted {
        assert sem.holders - {t} == old(sem.holders);
        Launch(t, m);
      } else {
        waiting := waiting[t := m];
      }
    }

    method Launch(t: nat, m: Module)
      requires Ready() && t in sem.holders
      requires Linked(pool.jobs, pool.settled, sem.holders - {t}, io.holders, io.q, slot, applied, applying)
      modifies this`slot, pool
      ensures Valid() && pool.closed == old(pool.closed)
      ensures pool.nextId == old(pool.nextId) + 1 && pool.settled == old(pool.settled)
    {
      hide Linked, Sound, NoRepeats, Pumped, Submitted, Answered, Crashed, Spawned;
      NextIsNew(pool.State());
      ReleasedAndHeld(sem.holders, t);
      ghost var jobs := pool.jobs;
      var id := pool.Run(m.bytes, m.name);
      LaunchLinks(jobs, pool.settled, sem.holders - {t}, io.holders, io.q, slot, applied, applying, id, t);
      slot := slot[id := t];
    }

    /** A worker answers; the result queues for the mutex. */
    method Message(w: nat, m: BakeResult)
      requires Valid() && w in pool.busy && m.id == pool.busy[w]
      modifies this`applying, pool, io
      ensures Valid() && pool.closed == old(pool.closed)
      ensures pool.settled == old(pool.settled) + [m.id] && applied == old(applied)
    {
      hide Linked, Sound, NoRepeats, Pumped, Submitted, Answered, Crashed, Spawned;
      HasJob(pool, w);
      ghost var jobs, settled := pool.jobs, pool.settled;
      var result := pool.OnMessage(w, m);
      Queue(result.id, jobs, settled);
    }

    /** A worker crashes; if it had a job, the failure queues for the mutex. */
    method Crash(w: nat, error: string)
      requires Valid() && w in pool.workers
      modifies this`applying, pool, io
      ensures Valid() && pool.closed == old(pool.closed)
      ensures pool.settled == old(pool.settled) + (if w in old(pool.busy) then [old(pool.busy)[w]] else [])
      ensures applied == old(applied)
    {
      hide Linked, Sound, NoRepeats, Pumped, Submitted, Answered, Crashed, Spawned;
      if w in pool.busy {
        HasJob(pool, w);
      }
      ghost var jobs, settled := pool.jobs, pool.settled;
      var result := pool.OnError(w, error);
      if result != None {
        Queue(result.value.id, jobs, settled);
      } else {
        assert pool.jobs == jobs && pool.settled == settled;
      }
    }

    method Queue(id: nat, ghost jobs: set<nat>, ghost settled: seq<nat>)
      requires Ready() && Linked(jobs, settled, sem.holders, io.holders, io.q, slot, applied, applying)
      requires id in jobs && id !in settled && pool.jobs == jobs - {id} && pool.settled == settled + [id]
      modifies this`applying, io
      ensures Valid()
    {
      hide Sound, NoRepeats;
      MutexFree(jobs, settled, sem.holders, io.holders, io.q, slot, applied, applying, id);
      SettleLinks(jobs, settled, sem.holders, io.holders, io.q, slot, applied, applying, id);
      var granted := io.Acquire(id);
      if granted {
        applying := [id];
      }
    }

    /** The job with the mutex is applied; the mutex and its slot pass on. */
    method Applied()
      requires Valid() && applying != []
      modifies this, pool, sem, io
      ensures Valid() && pool.closed == old(pool.closed)
      ensures applied == old(applied) + old(applying) && pool.settled == old(pool.settled)
      ensures old(sem.q) != [] ==> pool.nextId == old(pool.nextId) + 1 && sem.q == old(sem.q)[1..]
    {
      hide Linked, Sound, NoRepeats, Pumped, Submitted, Answered, Crashed, Spawned;
      PoolFacts(pool.State());
      MutexFree(pool.jobs, pool.settled, sem.holders, io.holders, io.q, slot, applied, applying, 0);
      ApplyLinks(pool.jobs, pool.settled, sem.holders, io.holders, io.q, slot, applied, applying);
      ghost var id := applying[0];
      ghost var t := slot[id];
      ghost var tickets, working, queued := sem.holders, io.holders, io.q;
      applied := applied + applying;
      applying := if io.q == [] then [] else [io.q[0]];
      slot := slot - {id};
      var _ := io.Release(id);
      assert io.holders == working - {id} + (if queued == [] then {} else {queued[0]});
      assert tickets == sem.holders;
      Free(t);
    }

    /** The slot goes to the module that waited longest, which starts, or back to the semaphore. */
    method Free(ghost t: nat)
      requires Ready() && t in sem.holders
      requires Linked(pool.jobs, pool.settled, sem.holders - {t}, io.holders, io.q, slot, applied, applying)
      modifies this`slot, pool, sem
      ensures Valid() && pool.closed == old(pool.closed) && pool.settled == old(pool.settled)
      ensures old(sem.q) != [] ==> pool.nextId == old(pool.nextId) + 1 && sem.q == old(sem.q)[1..]
    {
      hide Linked, Sound, NoRepeats, Pumped, Submitted, Answered, Crashed, Spawned;
      ghost var tickets := sem.holders;
      assert sem.q != [] ==> sem.q[0] in sem.q && forall x | x in sem.q[1..] :: x in sem.q;
      var woken := sem.Release(t);
      if woken == None {
        assert sem.holders == tickets - {t};
      } else {
        assert sem.holders - {woken.value} == tickets - {t};
        Launch(woken.value, waiting[woken.value]);
      }
    }
  }

  lemma HasJob(pool: BakePool, w: nat)
    requires pool.Valid() && w in pool.busy
    ensures pool.busy[w] in pool.jobs && pool.busy[w] !in pool.settled
  {
  }

  /** The mutex is free exactly when nothing is being applied. */
  lemma MutexFree(jobs: set<nat>, settled: seq<nat>, tickets: set<nat>, io: set<nat>, queued: seq<nat>,
                  slot: map<nat, nat>, applied: seq<nat>, applying: seq<nat>, id: nat)
    requires Linked(jobs, settled, tickets, io, queued, slot, applied, applying)
    ensures |io| < 1 <==> applying == []
    ensures id !in settled ==> id !in io && id !in queued
    ensures applying != [] ==> applying[0] in io
  {
    if applying == [] {
      assert io == {};
    } else {
      assert io == {applying[0]};
      assert settled[|applied|] == applying[0];
    }
    assert forall i | 0 <= i < |queued| :: settled[|applied| + |applying| + i] == queued[i];
  }

  /** With n + 2 slots at most two modules wait for a worker, at most one result is being applied, and results are applied in the order they came. */
  lemma AtMostTwoPending(g: Ingestor)
    requires g.Valid() && !g.pool.closed
    ensures |g.pool.pending| <= 2
    ensures |g.applying| <= 1 && g.pool.settled == g.applied + g.applying + g.io.q
    ensures |g.pool.jobs| == |g.pool.pending| + |g.pool.busy|
  {
    JobsBounded(g.pool.jobs, g.pool.settled, g.sem.holders, g.io.holders, g.io.q, g.slot, g.applied, g.applying);
    FewPending(g.pool.State(), g.pool.n);
  }
}
