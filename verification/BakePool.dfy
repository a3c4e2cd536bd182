/** The bake's worker pool: a fixed number of workers, replaced when they crash, fed in submission order. */
module BakePools {
  import opened Basics
  import opened Sequences

  datatype Job = Job(id: nat, bytes: Bytes, name: string)

  datatype BakeResult =
    | Baked(id: nat, root: string)
    | Failed(id: nat, error: string)

  /** The pool's books. `dispatched` and `settled` are its history: jobs handed to workers, results handed to callers. */
  datatype Pool = Pool(
    workers: seq<nat>, free: seq<nat>, busy: map<nat, nat>, jobs: set<nat>, pending: seq<Job>,
    nextId: nat, spawned: nat, dispatched: seq<nat>, settled: seq<nat>)

  /** Every worker is free or busy, never both. */
  ghost predicate Staffed(p: Pool) {
    Split(p.workers, p.free, p.busy) && forall w :: w in p.workers ==> w < p.spawned
  }

  ghost predicate Split(workers: seq<nat>, free: seq<nat>, busy: map<nat, nat>) {
    && NoRepeats(workers) && NoRepeats(free)
    && (forall w :: w in workers <==> w in free || w in busy)
    && (forall w :: w in free ==> w !in busy)
    && |workers| == |free| + |busy|
  }

  /** Jobs are dispatched in the order they were submitted, and the rest wait in that order. */
  ghost predicate InOrder(p: Pool) {
    && |p.dispatched| + |p.pending| == p.nextId
    && (forall i :: 0 <= i < |p.dispatched| ==> p.dispatched[i] == i)
    && (forall i :: 0 <= i < |p.pending| ==> p.pending[i].id == |p.dispatched| + i)
  }

  /** A job is outstanding until it is settled, which happens once. */
  ghost predicate Ledger(jobs: set<nat>, settled: seq<nat>, nextId: nat, started: nat) {
    && NoRepeats(settled)
    && (forall id :: id in settled ==> id < started)
    && (forall id: nat :: id in jobs <==> id < nextId && id !in settled)
  }

  /** Each outstanding job that was dispatched is with exactly one worker. */
  ghost predicate Held(busy: map<nat, nat>, jobs: set<nat>, started: nat) {
    && (forall w: nat :: w in busy ==> busy[w] < started && busy[w] in jobs)
    && (forall v, w :: v in busy && w in busy && busy[v] == busy[w] ==> v == w)
    && (forall id: nat :: id in jobs && id < started ==> IsWith(busy, id))
  }

  ghost predicate IsWith(busy: map<nat, nat>, id: nat) {
    exists w :: w in busy && busy[w] == id
  }

  /** The outstanding jobs are the pending ones and those with a worker. */
  ghost predicate Accounted(p: Pool) {
    && Ledger(p.jobs, p.settled, p.nextId, |p.dispatched|)
    && Held(p.busy, p.jobs, |p.dispatched|)
    && |p.jobs| == |p.pending| + |p.busy|
  }

  ghost predicate Sound(p: Pool) {
    Staffed(p) && InOrder(p) && Accounted(p)
  }

  // ---- Steps ----

  function Spawned(p: Pool): Pool {
    p.(workers := p.workers + [p.spawned], free := p.free + [p.spawned], spawned := p.spawned + 1)
  }

  function Submitted(p: Pool, bytes: Bytes, name: string): Pool {
    p.(nextId := p.nextId + 1, jobs := p.jobs + {p.nextId}, pending := p.pending + [Job(p.nextId, bytes, name)])
  }

  function Handed(p: Pool): Pool
    requires p.free != [] && p.pending != []
  {
    p.(free := p.free[..|p.free| - 1], pending := p.pending[1..],
       busy := p.busy[p.free[|p.free| - 1] := p.pending[0].id], dispatched := p.dispatched + [p.pending[0].id])
  }

  /** Hands out jobs while a worker is free and a job waits. */
  function Pumped(p: Pool): Pool
    decreases |p.pending|
  {
    if p.free == [] || p.pending == [] then p else Pumped(Handed(p))
  }

  function Answered(p: Pool, w: nat): Pool
    requires w in p.busy
  {
    p.(jobs := p.jobs - {p.busy[w]}, busy := p.busy - {w}, free := p.free + [w], settled := p.settled + [p.busy[w]])
  }

  function Crashed(p: Pool, w: nat): Pool {
    var q := p.(busy := p.busy - {w}, workers := Without(p.workers, w), free := Without(p.free, w));
    if w in p.busy then q.(jobs := p.jobs - {p.busy[w]}, settled := p.settled + [p.busy[w]]) else q
  }

  lemma SpawnKeeps(p: Pool)
    requires Sound(p)
    ensures Sound(Spawned(p))
  {
    var q := Spawned(p);
    assert p.spawned !in p.workers && p.spawned !in p.free;
  }

  lemma SubmitKeeps(p: Pool, bytes: Bytes, name: string)
    requires Sound(p)
    ensures Sound(Submitted(p, bytes, name))
  {
    hide Staffed, Accounted;
    SameStaff(p, Submitted(p, bytes, name));
    SubmitAccounts(p, bytes, name);
  }

  lemma SubmitAccounts(p: Pool, bytes: Bytes, name: string)
    requires Accounted(p) && |p.dispatched| <= p.nextId
    ensures Accounted(Submitted(p, bytes, name))
  {
    hide Held, Ledger;
    NewJob(p.jobs, p.settled, p.nextId, |p.dispatched|);
    MoreJobs(p.busy, p.jobs, |p.dispatched|, p.nextId);
  }

  lemma NewJob(jobs: set<nat>, settled: seq<nat>, nextId: nat, started: nat)
    requires Ledger(jobs, settled, nextId, started) && started <= nextId
    ensures Ledger(jobs + {nextId}, settled, nextId + 1, started) && nextId !in jobs
  {
  }

  lemma SameStaff(p: Pool, q: Pool)
    requires Staffed(p) && q.workers == p.workers && q.free == p.free && q.busy == p.busy && q.spawned == p.spawned
    ensures Staffed(q)
  {
  }

  lemma MoreJobs(busy: map<nat, nat>, jobs: set<nat>, started: nat, id: nat)
    requires Held(busy, jobs, started) && id >= started
    ensures Held(busy, jobs + {id}, started)
  {
  }

  lemma HandKeeps(p: Pool)
    requires Sound(p) && p.free != [] && p.pending != []
    ensures Sound(Handed(p))
  {
    hide Staffed, Accounted;
    HandStaffs(p);
    HandAccounts(p);
  }

  lemma HandStaffs(p: Pool)
    requires Staffed(p) && p.free != [] && p.pending != []
    ensures Staffed(Handed(p))
  {
    var w := p.free[|p.free| - 1];
    assert p.free == p.free[..|p.free| - 1] + [w];
    assert w in p.free;
    SizeOfPut(p.busy, w, p.pending[0].id);
  }

  lemma HandAccounts(p: Pool)
    requires Sound(p) && p.free != [] && p.pending != []
    ensures Accounted(Handed(p))
  {
    hide Held, NoRepeats;
    var w, id := p.free[|p.free| - 1], p.pending[0].id;
    assert w in p.free;
    assert id == |p.dispatched| && id in p.jobs;
    SizeOfPut(p.busy, w, id);
    Hold(p.busy, p.jobs, id, w);
  }

  lemma Hold(busy: map<nat, nat>, jobs: set<nat>, started: nat, w: nat)
    requires Held(busy, jobs, started) && started in jobs && w !in busy
    ensures Held(busy[w := started], jobs, started + 1)
  {
    var after := busy[w := started];
    forall id | id in jobs && id < started + 1 ensures IsWith(after, id) {
      if id < started {
        assert IsWith(busy, id);
        var v :| v in busy && busy[v] == id;
        assert after[v] == id;
      } else {
        assert after[w] == id;
      }
    }
  }

  lemma Settle(jobs: set<nat>, settled: seq<nat>, nextId: nat, started: nat, id: nat)
    requires Ledger(jobs, settled, nextId, started) && id in jobs && id < started
    ensures Ledger(jobs - {id}, settled + [id], nextId, started)
  {
    assert id !in settled;
  }

  lemma Unhold(busy: map<nat, nat>, jobs: set<nat>, started: nat, w: nat)
    requires Held(busy, jobs, started) && w in busy
    ensures Held(busy - {w}, jobs - {busy[w]}, started)
  {
    var after := busy - {w};
    forall id | id in jobs - {busy[w]} && id < started ensures IsWith(after, id) {
      assert IsWith(busy, id);
      var v :| v in busy && busy[v] == id;
      assert v in after && after[v] == id;
    }
  }

  lemma {:induction false} PumpKeeps(p: Pool)
    requires Sound(p)
    ensures Sound(Pumped(p)) && (Pumped(p).free == [] || Pumped(p).pending == [])
    ensures Pumped(p).workers == p.workers && Pumped(p).jobs == p.jobs && Pumped(p).settled == p.settled
    ensures Pumped(p).nextId == p.nextId && Pumped(p).spawned == p.spawned
    decreases |p.pending|
  {
    hide Sound;
    if p.free != [] && p.pending != [] {
      HandKeeps(p);
      PumpKeeps(Handed(p));
    }
  }

  lemma SettleAccounts(p: Pool, w: nat)
    requires Accounted(p) && w in p.busy
    ensures Accounted(p.(jobs := p.jobs - {p.busy[w]}, busy := p.busy - {w}, settled := p.settled + [p.busy[w]]))
  {
    hide Ledger;
    var id := p.busy[w];
    assert id in p.jobs && id < |p.dispatched|;
    SizeOfDrop(p.busy, w);
    Settle(p.jobs, p.settled, p.nextId, |p.dispatched|, id);
    Unhold(p.busy, p.jobs, |p.dispatched|, w);
    hide Held;
  }

  lemma AnswerKeeps(p: Pool, w: nat)
    requires Sound(p) && w in p.busy
    ensures Sound(Answered(p, w))
  {
    hide Accounted, Staffed;
    AnswerAccounts(p, w);
    AnswerStaffs(p, w);
  }

  lemma AnswerAccounts(p: Pool, w: nat)
    requires Accounted(p) && w in p.busy
    ensures Accounted(Answered(p, w))
  {
    hide Ledger, Held;
    SettleAccounts(p, w);
  }

  lemma AnswerStaffs(p: Pool, w: nat)
    requires Staffed(p) && w in p.busy
    ensures Staffed(Answered(p, w))
  {
    SizeOfDrop(p.busy, w);
    assert w !in p.free;
  }

  lemma CrashKeeps(p: Pool, w: nat)
    requires Sound(p) && w in p.workers
    ensures Sound(Crashed(p, w)) && |Crashed(p, w).workers| == |p.workers| - 1
  {
    hide Staffed, Accounted;
    CrashStaffs(p, w);
    CrashAccounts(p, w);
    assert InOrder(Crashed(p, w));
  }

  lemma CrashAccounts(p: Pool, w: nat)
    requires Accounted(p)
    ensures Accounted(Crashed(p, w))
  {
    hide Ledger, Held;
    if w in p.busy {
      SettleAccounts(p, w);
    } else {
      assert p.busy - {w} == p.busy;
    }
  }

  lemma CrashStaffs(p: Pool, w: nat)
    requires Staffed(p) && w in p.workers
    ensures Staffed(Crashed(p, w)) && |Crashed(p, w).workers| == |p.workers| - 1
  {
    hide NoRepeats, Without, Split;
    CrashSplits(p.workers, p.free, p.busy, w);
    assert Crashed(p, w).workers == Without(p.workers, w);
  }

  lemma CrashSplits(workers: seq<nat>, free: seq<nat>, busy: map<nat, nat>, w: nat)
    requires Split(workers, free, busy) && w in workers
    ensures Split(Without(workers, w), Without(free, w), busy - {w})
    ensures |Without(workers, w)| == |workers| - 1
    ensures forall x :: x in Without(workers, w) ==> x in workers
  {
    hide NoRepeats, Without;
    WithoutIs(workers, w);
    SizeOfDrop(busy, w);
    assert NoRepeats(Without(free, w)) && |Without(free, w)| == |free| - if w in free then 1 else 0 by {
      WithoutIs(free, w);
    }
    forall x
      ensures x in Without(workers, w) <==> x in Without(free, w) || x in busy - {w}
      ensures x in Without(free, w) ==> x !in busy - {w}
    {
      assert x in Without(free, w) <==> x in free && x != w by { WithoutIs(free, w); }
    }
  }

  /** While every worker is busy before a job waits, n + 2 outstanding jobs leave at most two waiting. */
  lemma FewPending(p: Pool, n: nat)
    requires Sound(p) && (p.free == [] || p.pending == []) && |p.workers| == n && |p.jobs| <= n + 2
    ensures |p.pending| <= 2
  {
  }

  // ---- The class ----

  class BakePool {
    var workers: seq<nat>
    var free: seq<nat>
    var busy: map<nat, nat>
    var jobs: set<nat>
    var pending: seq<Job>
    var nextId: nat
    var closed: bool
    var spawned: nat
    ghost var dispatched: seq<nat>
    ghost var settled: seq<nat>
    const n: nat

    ghost function State(): Pool
      reads this
    {
      Pool(workers, free, busy, jobs, pending, nextId, spawned, dispatched, settled)
    }

    /** The books are sound, no job waits while a worker is free, and the pool keeps its size until it is closed. */
    ghost predicate Valid()
      reads this
    {
      && Sound(State())
      && (free == [] || pending == [])
      && (if closed then |workers| <= n else |workers| == n)
    }

    constructor (n: nat)
      ensures Valid() && !closed && this.n == n && nextId == 0 && jobs == {} && settled == []
    {
      workers, free, busy, jobs, pending := [], [], map[], {}, [];
      nextId, closed, spawned, dispatched, settled := 0, false, 0, [], [];
      this.n := n;
      new;
      hide Sound;
      NoneSound(State());
      for i := 0 to n
        invariant Sound(State()) && |workers| == i && pending == [] && !closed
        invariant nextId == 0 && jobs == {} && settled == []
      {
        Spawn();
      }
    }

    method Spawn()
      requires Sound(State())
      modifies this`workers, this`free, this`spawned
      ensures State() == Spawned(old(State())) && Sound(State())
    {
      SpawnKeeps(State());
      var w := spawned;
      spawned := spawned + 1;
      workers := workers + [w];
      free := free + [w];
    }

    method Pump()
      requires Sound(State())
      modifies this`free, this`pending, this`busy, this`dispatched
      ensures State() == Pumped(old(State()))
    {
      hide Sound;
      ghost var start := State();
      while free != [] && pending != []
        invariant Pumped(State()) == Pumped(start)
        decreases |pending|
      {
        var w := free[|free| - 1];
        free := free[..|free| - 1];
        var job := pending[0];
        pending := pending[1..];
        busy := busy[w := job.id];
        dispatched := dispatched + [job.id];
      }
    }

    /** Queues a module; its result comes when a worker has built it. */
    method Run(bytes: Bytes, name: string) returns (id: nat)
      requires Valid()
      modifies this
      ensures Valid() && closed == old(closed) && id == old(nextId)
      ensures State() == Pumped(Submitted(old(State()), bytes, name))
      ensures jobs == old(jobs) + {id} && settled == old(settled) && nextId == id + 1
    {
      hide Sound, Pumped;
      SubmitKeeps(State(), bytes, name);
      PumpKeeps(Submitted(State(), bytes, name));
      id := nextId;
      nextId := nextId + 1;
      jobs := jobs + {id};
      pending := pending + [Job(id, bytes, name)];
      Pump();
    }

    /** Worker `w` answers for the job it was given. */
    method OnMessage(w: nat, m: BakeResult) returns (result: BakeResult)
      requires Valid() && w in busy && m.id == busy[w]
      modifies this
      ensures Valid() && closed == old(closed) && result == m
      ensures State() == Pumped(Answered(old(State()), w))
      ensures jobs == old(jobs) - {m.id} && settled == old(settled) + [m.id] && nextId == old(nextId)
    {
      hide Sound, Pumped;
      AnswerKeeps(State(), w);
      PumpKeeps(Answered(State(), w));
      jobs := jobs - {m.id};
      settled := settled + [m.id];
      busy := busy - {w};
      free := free + [w];
      result := m;
      Pump();
    }

    method Retire(w: nat, error: string) returns (result: Option<BakeResult>)
      requires Sound(State()) && w in workers
      modifies this`workers, this`free, this`busy, this`jobs, this`settled
      ensures State() == Crashed(old(State()), w) && Sound(State()) && Sound(Spawned(State()))
      ensures |workers| == |old(workers)| - 1
      ensures result == if w in old(busy) then Some(Failed(old(busy)[w], error)) else None
    {
      hide Sound, Without, Spawned;
      ghost var target := Crashed(State(), w);
      CrashKeeps(State(), w);
      SpawnKeeps(target);
      result := None;
      if w in busy {
        jobs := jobs - {busy[w]};
        settled := settled + [busy[w]];
        result := Some(Failed(busy[w], error));
      }
      busy := busy - {w};
      workers := Without(workers, w);
      free := Without(free, w);
      assert State() == target;
    }

    /** Worker `w` dies: its job fails, and another worker takes its place unless the pool is closing. */
    method OnError(w: nat, error: string) returns (result: Option<BakeResult>)
      requires Valid() && w in workers
      modifies this
      ensures Valid() && closed == old(closed)
      ensures result == if w in old(busy) then Some(Failed(old(busy)[w], error)) else None
      ensures State() == if closed then Crashed(old(State()), w) else Pumped(Spawned(Crashed(old(State()), w)))
      ensures jobs == old(jobs) - (if w in old(busy) then {old(busy)[w]} else {})
      ensures settled == old(settled) + (if w in old(busy) then [old(busy)[w]] else [])
      ensures nextId == old(nextId)
    {
      hide Sound, Pumped, Crashed, Spawned;
      CrashFacts(State(), w);
      result := Retire(w, error);
      SpawnFacts(State());
      PumpKeeps(Spawned(State()));
      if !closed {
        Spawn();
        Pump();
      }
    }

    method Close()
      requires Valid()
      modifies this`closed
      ensures Valid() && closed
    {
      closed := true;
    }
  }

  lemma NoneSound(p: Pool)
    requires p == Pool([], [], map[], {}, [], 0, 0, [], [])
    ensures Sound(p)
  {
    hide Staffed, Accounted;
    NoneStaffed(p);
    NoneAccounted(p);
  }

  lemma NoneStaffed(p: Pool)
    requires p == Pool([], [], map[], {}, [], 0, 0, [], [])
    ensures Staffed(p)
  {
  }

  lemma NoneAccounted(p: Pool)
    requires p == Pool([], [], map[], {}, [], 0, 0, [], [])
    ensures Accounted(p)
  {
  }

  lemma CrashFacts(p: Pool, w: nat)
    ensures var q := Crashed(p, w);
      && (p.free == [] ==> q.free == []) && q.pending == p.pending && q.nextId == p.nextId
      && q.jobs == p.jobs - (if w in p.busy then {p.busy[w]} else {})
      && q.settled == p.settled + if w in p.busy then [p.busy[w]] else []
  {
  }

  lemma SpawnFacts(p: Pool)
    ensures var q := Spawned(p);
      && |q.workers| == |p.workers| + 1 && q.pending == p.pending && q.nextId == p.nextId
      && q.jobs == p.jobs && q.settled == p.settled
  {
  }
}
